/** The newer distribution-point layer (jss/distribution_point.py): local,
    AFP and SMB file repositories and the JSS-controlled distribution
    servers (JDS, CDP). A repository is an object whose `connection`
    dictionary its methods rewrite; the host it acts on is passed in and
    handed back. */
module DistributionPoint {
  import opened Errors
  import opened Text
  import opened Host
  import Paths
  import Classify
  import Mounting
  import Repos

  datatype Kind = Local | Afp | Smb | DistributionServer | Jds | Cdp {
    /** MountedRepository subclasses. */
    predicate Mountable() { this == Afp || this == Smb }
    /** DistributionServer and its subclasses. */
    predicate Server() { this == DistributionServer || this == Jds || this == Cdp }
  }

  /** `required_attrs` of each class. */
  function RequiredAttrs(k: Kind): set<string> {
    match k
    case Local => {"mount_point", "share_name"}
    case Afp => {"url", "mount_point", "username", "password", "share_name"}
    case Smb => {"url", "share_name", "mount_point", "domain", "username", "password"}
    case _ => {"jss"}
  }

  /** The DESTINATION header of each server class. */
  function DestinationCode(k: Kind): string
    requires k.Server()
  {
    match k
    case DistributionServer => "0"
    case Jds => "1"
    case Cdp => "2"
  }

  /** `fs_type`: AFP shares show as "afpfs"; SMB shares as "smbfs" on macOS
      and "cifs" on Linux, set before the first `is_mounted`. */
  function FsType(k: Kind, os: Os): string {
    if k == Afp then "afpfs"
    else if k == Smb && os == Darwin then "smbfs"
    else if k == Smb && os == Linux then "cifs"
    else "undefined"
  }

  /** `_build_url`. */
  function BuildUrl(k: Kind, c: Connection): Result<Connection> {
    match k
    case Local => Ok(c)
    case Afp =>
      Ok(c["mount_url" := Str(Mounting.AfpMountUrl(Get(c, "username"), Get(c, "password"),
                                                   Get(c, "url"), Get(c, "port"), Get(c, "share_name")))])
    case Smb =>
      Ok(c["mount_url" := Str(Mounting.SmbMountUrl(Get(c, "domain"), Get(c, "username"), Get(c, "password"),
                                                   Get(c, "url"), Get(c, "port"), Get(c, "share_name")))])
    case _ =>
      match JssAt(c, "base_url")
      case Err(e) => Err(e)
      case Ok(j) =>
        Ok(c["upload_url" := Str(j.baseUrl + "/dbfileupload")]["delete_url" := Str(j.baseUrl + "/casperAdminSave.jxml")])
  }

  /** Construction: the required keys are checked, the URLs built, then a
      local repository records "local://" + mount point as its url, a
      mounted share reconciles its mount point, and a server takes the
      JSS's base URL as its url. */
  function Construct(k: Kind, args: Connection, h: HostState): Step<()> {
    if !(RequiredAttrs(k) <= args.Keys) then
      Step(args, h, Err(MissingArgumentsJSSError(RequiredAttrs(k) - args.Keys)))
    else match BuildUrl(k, args)
      case Err(e) => Step(args, h, Err(e))
      case Ok(c) =>
        if k == Local then Step(c["url" := Str("local://" + Render(Get(c, "mount_point")))], h, Ok(()))
        else if k.Mountable() then
          var (c', m) := Mounting.ReconcileSpec(c, h, FsType(k, h.os), "url", true);
          Step(c', h, if m.Err? then Err(m.error) else Ok(()))
        else match JssAt(c, "base_url")
          case Err(e) => Step(c, h, Err(e))
          case Ok(j) => Step(c["url" := Str(j.baseUrl)], h, Ok(()))
  }

  /** `_mount`: the command that mounts the share (the PyObjC
      `mount_share` route is not modelled). `connection["jss"]` is read for
      its verbosity: first on macOS AFP, after the arguments otherwise. */
  function MountCommand(k: Kind, os: Os, c: Connection): Result<seq<string>>
    requires k.Mountable()
  {
    if os == OtherOs then Err(JSSError("Unsupported OS."))
    else if k == Afp && os == Darwin && JssAt(c, "verbose").Err? then Err(JssAt(c, "verbose").error)
    else if k == Smb && os == Linux then
      match LookupAll(c, ["username", "password", "domain", "port", "url", "share_name", "mount_point"])
      case Err(e) => Err(e)
      case Ok(v) =>
        if JssAt(c, "verbose").Err? then Err(JssAt(c, "verbose").error)
        else Ok(["mount", "-t", "cifs", "-o",
                 "username=" + Render(v[0]) + ",password=" + Render(v[1]) + ",domain=" + Render(v[2])
                   + ",port=" + Render(v[3]),
                 "//" + Render(v[4]) + "/" + Render(v[5]), Render(v[6])])
    else
      match LookupAll(c, ["mount_url", "mount_point"])
      case Err(e) => Err(e)
      case Ok(v) =>
        if JssAt(c, "verbose").Err? then Err(JssAt(c, "verbose").error)
        else if k == Afp then
          Ok(Mounting.MountArgs(if os == Darwin then "mount" else "mount_afp", "afp", Render(v[0]), Render(v[1]), false))
        else Ok(Mounting.MountArgs("mount", "smbfs", Render(v[0]), Render(v[1]), false))
  }

  /** `is_mounted` of a mounted repository. */
  function IsMountedSpec(k: Kind, fsType: string, c: Connection, h: HostState): (Connection, Result<bool>) {
    Mounting.ReconcileSpec(c, h, fsType, "url", true)
  }

  /** `mount`: nothing to do when the share is mounted; otherwise, off macOS
      create a missing mount point, then run the mount command. */
  function MountSpec(k: Kind, fsType: string, c: Connection, h: HostState): Step<()>
    requires k.Mountable()
  {
    MountWith(k, h, IsMountedSpec(k, fsType, c, h))
  }

  /** `mount` once `is_mounted` answered `m` and reconciled the connection
      into `c1`. */
  function MountWith(k: Kind, h: HostState, cm: (Connection, Result<bool>)): Step<()>
    requires k.Mountable()
  {
    var (c1, m) := cm;
    if m.Err? then Step(c1, h, Err(m.error))
    else if m.value then Step(c1, h, Ok(()))
    else
      var h1 :=
        if h.os == Darwin then Ok(h)
        else match StrAt(c1, "mount_point")
          case Err(e) => Err(e)
          case Ok(mp) => Ok(if h.Exists(mp) then h else h.Do(MakeDir(mp)));
      if h1.Err? then Step(c1, h, Err(h1.error))
      else match MountCommand(k, h.os, c1)
        case Err(e) => Step(c1, h1.value, Err(e))
        case Ok(args) => Step(c1, h1.value.Do(Run(args)), Ok(()))
  }

  /** `umount`: only a mounted share is unmounted, with `diskutil` on macOS
      and `umount` elsewhere. */
  function UmountSpec(k: Kind, fsType: string, c: Connection, h: HostState, forced: bool): Step<()>
    requires k.Mountable()
  {
    var (c1, m) := IsMountedSpec(k, fsType, c, h);
    if m.Err? then Step(c1, h, Err(m.error))
    else if !m.value then Step(c1, h, Ok(()))
    else match StrAt(c1, "mount_point")
      case Err(e) => Step(c1, h, Err(e))
      case Ok(mp) => Step(c1, h.Do(Run(Mounting.UmountArgs(h.os == Darwin, mp, forced))), Ok(()))
  }

  /** `auto_mounter`: mount first when `is_mounted()` says the share is not
      mounted. */
  function AutoMountSpec(k: Kind, fsType: string, c: Connection, h: HostState): Step<()>
    requires k.Mountable()
  {
    var (c1, m) := IsMountedSpec(k, fsType, c, h);
    if m.Err? then Step(c1, h, Err(m.error))
    else if m.value then Step(c1, h, Ok(()))
    else MountSpec(k, fsType, c1, h)
  }

  /** FileRepository's copy into `folder`: the destination is computed from
      the mount point before a mounted share is (re)mounted. */
  function CopyToShare(k: Kind, fsType: string, c: Connection, h: HostState, filename: string, folder: string): Step<()>
    requires !k.Server()
  {
    match Repos.Destination(c, folder, filename)
    case Err(e) => Step(c, h, Err(e))
    case Ok(dest) =>
      if k == Local then
        var (h', r) := Repos.CopyInto(h, filename, dest);
        Step(c, h', r)
      else
        var a := AutoMountSpec(k, fsType, c, h);
        if a.result.Err? then a
        else
          var (h', r) := Repos.CopyInto(a.host, filename, dest);
          Step(a.conn, h', r)
  }

  /** `copy_pkg`. */
  function CopyPkgSpec(k: Kind, fsType: string, c: Connection, h: HostState, filename: string, id: int): Step<()> {
    if k.Server() then Repos.ServerUpload(c, h, filename, id, Classify.PKG_FILE_TYPE, DestinationCode(k))
    else CopyToShare(k, fsType, c, h, filename, "Packages")
  }

  /** `copy_script`: a migrated JSS receives file-share scripts as uploads. */
  function CopyScriptSpec(k: Kind, fsType: string, c: Connection, h: HostState, filename: string, id: int): Step<()> {
    if k.Server() then Repos.ServerUpload(c, h, filename, id, Classify.SCRIPT_FILE_TYPE, DestinationCode(k))
    else match Repos.Migrated(c)
      case Err(e) => Step(c, h, Err(e))
      case Ok(migrated) =>
        if migrated then Repos.MigratedScriptUpload(c, h, filename, id)
        else CopyToShare(k, fsType, c, h, filename, "Scripts")
  }

  /** `delete`. */
  function DeleteSpec(k: Kind, fsType: string, c: Connection, h: HostState, filename: string): Step<()> {
    if k.Server() then Repos.ServerDelete(c, h, filename)
    else if k == Local then Repos.DeleteOnShare(c, h, filename)
    else
      var a := AutoMountSpec(k, fsType, c, h);
      if a.result.Err? then a else Repos.DeleteOnShare(a.conn, a.host, filename)
  }

  /** `exists`. */
  function ExistsSpec(k: Kind, fsType: string, c: Connection, h: HostState, filename: string): Step<bool> {
    if k.Server() then Step(c, h, Repos.ServerExistsSpec(c, filename))
    else if k == Local then Step(c, h, Repos.ExistsOnShare(c, h, filename))
    else
      var a := AutoMountSpec(k, fsType, c, h);
      if a.result.Err? then Step(a.conn, a.host, Err(a.result.error))
      else Step(a.conn, a.host, Repos.ExistsOnShare(a.conn, a.host, filename))
  }

  class Repository {
    const kind: Kind
    const fsType: string
    var connection: Connection

    /** The object once `__init__` has validated and completed `connection`. */
    constructor FromConnection(kind: Kind, fsType: string, connection: Connection)
      ensures this.kind == kind && this.fsType == fsType && this.connection == connection
    {
      this.kind := kind;
      this.fsType := fsType;
      this.connection := connection;
    }

    /** `Repository.__init__` and the subclass constructors. */
    static method Create(kind: Kind, args: Connection, h: HostState) returns (r: Result<Repository>)
      ensures r.Ok? <==> Construct(kind, args, h).result.Ok?
      ensures r.Err? ==> r.error == Construct(kind, args, h).result.error
      ensures r.Ok? ==> fresh(r.value) && r.value.kind == kind && r.value.fsType == FsType(kind, h.os)
                        && r.value.connection == Construct(kind, args, h).conn
    {
      if !(RequiredAttrs(kind) <= args.Keys) {
        return Err(MissingArgumentsJSSError(RequiredAttrs(kind) - args.Keys));
      }
      var built := BuildUrl(kind, args);
      if built.Err? {
        return Err(built.error);
      }
      var repo := new Repository.FromConnection(kind, FsType(kind, h.os), built.value);
      if kind == Local {
        repo.connection := repo.connection["url" := Str("local://" + Render(Get(repo.connection, "mount_point")))];
      } else if kind.Mountable() {
        var m := repo.IsMounted(h);
        if m.Err? {
          return Err(m.error);
        }
      } else {
        var j := JssAt(repo.connection, "base_url");
        if j.Err? {
          return Err(j.error);
        }
        repo.connection := repo.connection["url" := Str(j.value.baseUrl)];
      }
      r := Ok(repo);
    }

    /** `is_mounted`. */
    method IsMounted(h: HostState) returns (r: Result<bool>)
      requires kind.Mountable()
      modifies this
      ensures (connection, r) == IsMountedSpec(kind, fsType, old(connection), h)
    {
      connection, r := Mounting.Reconcile(connection, h, fsType, "url", true);
    }

    /** `mount`. */
    method Mount(h: HostState) returns (h': HostState, r: Result<()>)
      requires kind.Mountable()
      modifies this
      ensures Step(connection, h', r) == MountSpec(kind, fsType, old(connection), h)
    {
      var m := IsMounted(h);
      if m.Err? {
        return h, Err(m.error);
      }
      if m.value {
        return h, Ok(());
      }
      h' := h;
      if h.os != Darwin {
        var mp := StrAt(connection, "mount_point");
        if mp.Err? {
          return h, Err(mp.error);
        }
        if !h.Exists(mp.value) {
          h' := h.Do(MakeDir(mp.value));
        }
      }
      var cmd := MountCommand(kind, h.os, connection);
      if cmd.Err? {
        return h', Err(cmd.error);
      }
      h' := h'.Do(Run(cmd.value));
      r := Ok(());
    }

    /** `umount`; `forced` defaults to true in the library. */
    method Umount(h: HostState, forced: bool) returns (h': HostState, r: Result<()>)
      requires kind.Mountable()
      modifies this
      ensures Step(connection, h', r) == UmountSpec(kind, fsType, old(connection), h, forced)
    {
      var m := IsMounted(h);
      if m.Err? {
        return h, Err(m.error);
      }
      if !m.value {
        return h, Ok(());
      }
      var mp := StrAt(connection, "mount_point");
      if mp.Err? {
        return h, Err(mp.error);
      }
      h' := h.Do(Run(Mounting.UmountArgs(h.os == Darwin, mp.value, forced)));
      r := Ok(());
    }

    /** The `auto_mounter` decorator's step before the wrapped call. */
    method AutoMount(h: HostState) returns (h': HostState, r: Result<()>)
      requires kind.Mountable()
      modifies this
      ensures Step(connection, h', r) == AutoMountSpec(kind, fsType, old(connection), h)
    {
      var m := IsMounted(h);
      if m.Err? {
        return h, Err(m.error);
      }
      if m.value {
        return h, Ok(());
      }
      h', r := Mount(h);
    }

    method CopyToShareStep(h: HostState, filename: string, folder: string) returns (h': HostState, r: Result<()>)
      requires !kind.Server()
      modifies this
      ensures Step(connection, h', r) == CopyToShare(kind, fsType, old(connection), h, filename, folder)
    {
      var dest := Repos.Destination(connection, folder, filename);
      if dest.Err? {
        return h, Err(dest.error);
      }
      h' := h;
      if kind != Local {
        h', r := AutoMount(h);
        if r.Err? {
          return;
        }
      }
      var copied := Repos.CopyInto(h', filename, dest.value);
      h', r := copied.0, copied.1;
    }

    /** `copy_pkg`. */
    method CopyPkg(h: HostState, filename: string, id: int) returns (h': HostState, r: Result<()>)
      modifies this
      ensures Step(connection, h', r) == CopyPkgSpec(kind, fsType, old(connection), h, filename, id)
    {
      if kind.Server() {
        var s := Repos.ServerUpload(connection, h, filename, id, Classify.PKG_FILE_TYPE, DestinationCode(kind));
        return s.host, s.result;
      }
      h', r := CopyToShareStep(h, filename, "Packages");
    }

    /** `copy_script`. */
    method CopyScript(h: HostState, filename: string, id: int) returns (h': HostState, r: Result<()>)
      modifies this
      ensures Step(connection, h', r) == CopyScriptSpec(kind, fsType, old(connection), h, filename, id)
    {
      if kind.Server() {
        var s := Repos.ServerUpload(connection, h, filename, id, Classify.SCRIPT_FILE_TYPE, DestinationCode(kind));
        return s.host, s.result;
      }
      var migrated := Repos.Migrated(connection);
      if migrated.Err? {
        return h, Err(migrated.error);
      }
      if migrated.value {
        var s := Repos.MigratedScriptUpload(connection, h, filename, id);
        return s.host, s.result;
      }
      h', r := CopyToShareStep(h, filename, "Scripts");
    }

    /** `delete`. */
    method Delete(h: HostState, filename: string) returns (h': HostState, r: Result<()>)
      modifies this
      ensures Step(connection, h', r) == DeleteSpec(kind, fsType, old(connection), h, filename)
    {
      if kind.Server() {
        var s := Repos.ServerDelete(connection, h, filename);
        return s.host, s.result;
      }
      h' := h;
      if kind != Local {
        h', r := AutoMount(h);
        if r.Err? {
          return;
        }
      }
      var s := Repos.DeleteOnShare(connection, h', filename);
      h', r := s.host, s.result;
    }

    /** `exists`. */
    method Exists(h: HostState, filename: string) returns (h': HostState, r: Result<bool>)
      modifies this
      ensures Step(connection, h', r) == ExistsSpec(kind, fsType, old(connection), h, filename)
    {
      if kind.Server() {
        r := Repos.ServerExists(connection, filename);
        return h, r;
      }
      h' := h;
      if kind != Local {
        var m;
        h', m := AutoMount(h);
        if m.Err? {
          return h', Err(m.error);
        }
      }
      r := Repos.ExistsOnShare(connection, h', filename);
    }

    /** `exists_using_casper` of a distribution server. */
    method ExistsUsingCasper(filename: string) returns (r: Result<bool>)
      requires kind.Server()
      ensures r.Ok? <==> JssAt(connection, "base_url").Ok? && JssAt(connection, "base_url").value.serverFileUrls != []
      ensures r.Ok? ==> (r.value <==> Repos.OnEveryServer(JssAt(connection, "base_url").value.serverFileUrls, filename))
    {
      r := Repos.ExistsUsingCasper(connection, filename);
    }
  }

  // ---------------------------------------------------------------------------
  // Properties

  /** Construction fails with the missing keys exactly when `required_attrs`
      is not a subset of the given keys. */
  lemma ConstructRequiresAttrs(k: Kind, args: Connection, h: HostState)
    ensures Construct(k, args, h).result == Err(MissingArgumentsJSSError(RequiredAttrs(k) - args.Keys))
      <==> !(RequiredAttrs(k) <= args.Keys)
  {
    if RequiredAttrs(k) <= args.Keys {
      var s := Construct(k, args, h);
      if s.result.Err? {
        match BuildUrl(k, args)
        case Err(e) =>
          assert e == JssAt(args, "base_url").error;
        case Ok(c) =>
          if k.Mountable() {
            var m := Mounting.ReconcileSpec(c, h, FsType(k, h.os), "url", true).1;
            ReconcileErrors(c, h, FsType(k, h.os), "url");
          }
      }
    }
  }

  /** `is_mounted` raises only KeyError for a missing key, TypeError for a
      share name `quote` refuses or a mount point that is not a string,
      AttributeError for a host that is not a string or a "jss" entry that
      is not a JSS object, socket.gaierror for a host that does not resolve,
      and JSSError for an unsupported OS. */
  lemma ReconcileErrors(c: Connection, h: HostState, fsType: string, urlKey: string)
    ensures var m := Mounting.ReconcileSpec(c, h, fsType, urlKey, true).1;
      m.Err? ==> (m.error.KeyError? || m.error.TypeError? || m.error.JSSError?
        || m.error in {AttributeError("endswith"), AttributeError("verbose")}
        || (m.error.GaiError? && m.error.host in h.unresolved))
  {
  }

  /** A local repository's url is "local://" followed by its mount point. */
  lemma LocalUrl(args: Connection, h: HostState)
    requires "mount_point" in args && "share_name" in args && args["mount_point"].Str?
    ensures Construct(Local, args, h).result.Ok?
    ensures Construct(Local, args, h).conn == args["url" := Str("local://" + args["mount_point"].s)]
  {
  }

  /** A distribution server's url is its JSS's base URL, and it uploads to
      base URL + "/dbfileupload". */
  lemma ServerUrls(k: Kind, args: Connection, h: HostState)
    requires k.Server() && JssAt(args, "base_url").Ok?
    ensures Construct(k, args, h).result.Ok?
    ensures Construct(k, args, h).conn["url"] == Str(args["jss"].jss.baseUrl)
    ensures Construct(k, args, h).conn["upload_url"] == Str(args["jss"].jss.baseUrl + "/dbfileupload")
  {
  }

  /** `mount` runs nothing when the share is already mounted; otherwise a
      successful mount ends with one command whose last argument is the
      reconciled mount point. */
  lemma MountOnlyWhenUnmounted(k: Kind, fsType: string, c: Connection, h: HostState)
    requires k.Mountable()
    ensures IsMountedSpec(k, fsType, c, h).1 == Ok(true) ==> MountSpec(k, fsType, c, h).host == h
    ensures MountSpec(k, fsType, c, h).host.log != h.log ==> IsMountedSpec(k, fsType, c, h).1 == Ok(false)
    ensures MountSpec(k, fsType, c, h).result.Ok? && IsMountedSpec(k, fsType, c, h).1 == Ok(false) ==>
      EndsWithMountAt(MountSpec(k, fsType, c, h))
  {
    MountWithShape(k, h, IsMountedSpec(k, fsType, c, h));
  }

  lemma MountWithShape(k: Kind, h: HostState, cm: (Connection, Result<bool>))
    requires k.Mountable()
    ensures cm.1 == Ok(true) ==> MountWith(k, h, cm).host == h
    ensures MountWith(k, h, cm).host.log != h.log ==> cm.1 == Ok(false)
    ensures MountWith(k, h, cm).result.Ok? && cm.1 == Ok(false) ==>
      EndsWithMountAt(MountWith(k, h, cm))
  {
  }

  /** The last thing done is a command whose last argument is the
      connection's mount point. */
  predicate EndsWithMountAt(s: Step<()>) {
    |s.host.log| > 0 && s.host.log[|s.host.log| - 1].Run? && s.host.log[|s.host.log| - 1].argv != []
    && "mount_point" in s.conn
    && Mounting.Last(s.host.log[|s.host.log| - 1].argv) == Render(s.conn["mount_point"])
  }

  /** `umount` runs a command only when the share is mounted, and then
      exactly the unmount command for the reconciled mount point. */
  lemma UmountOnlyWhenMounted(k: Kind, fsType: string, c: Connection, h: HostState, forced: bool)
    requires k.Mountable()
    ensures UmountSpec(k, fsType, c, h, forced).host != h ==> IsMountedSpec(k, fsType, c, h).1 == Ok(true)
    ensures UmountSpec(k, fsType, c, h, forced).result.Ok? && IsMountedSpec(k, fsType, c, h).1 == Ok(true) ==>
      var s := UmountSpec(k, fsType, c, h, forced);
      s.host.log == h.log + [Run(Mounting.UmountArgs(h.os == Darwin, s.conn["mount_point"].s, forced))]
  {
  }

  /** On a share that is already mounted, the auto-mounting operations run
      no command: they act on the reconciled mount point directly. */
  lemma MountedShareNeedsNoMount(k: Kind, fsType: string, c: Connection, h: HostState, filename: string)
    requires k.Mountable() && IsMountedSpec(k, fsType, c, h).1 == Ok(true)
    ensures var c1 := IsMountedSpec(k, fsType, c, h).0;
      ExistsSpec(k, fsType, c, h, filename) == Step(c1, h, Repos.ExistsOnShare(c1, h, filename))
      && DeleteSpec(k, fsType, c, h, filename) == Repos.DeleteOnShare(c1, h, filename)
  {
  }

  /** In a local repository, `copy_pkg` of a package and `copy_script` of a
      script on a JSS that is not migrated are `_copy` into the file's
      folder, with the connection unchanged. */
  lemma LocalCopyIsCopyInto(c: Connection, h: HostState, filename: string, id: int, fsType: string)
    requires "mount_point" in c && c["mount_point"].Str?
    requires Classify.IsPackage(filename) || Repos.Migrated(c) == Ok(false)
    ensures var dest := Paths.Join3(c["mount_point"].s, Repos.Folder(filename), Paths.Basename(filename));
      var s := if Classify.IsPackage(filename) then CopyPkgSpec(Local, fsType, c, h, filename, id)
               else CopyScriptSpec(Local, fsType, c, h, filename, id);
      s == Step(c, Repos.CopyInto(h, filename, dest).0, Repos.CopyInto(h, filename, dest).1)
  {
  }

  /** A package copied into a local repository then exists there under its
      basename; a script likewise when the JSS is not migrated. The copy
      needs the Packages or Scripts folder to be there, and the destination
      to be neither a directory nor the file itself. */
  lemma LocalCopyThenExists(c: Connection, h: HostState, filename: string, id: int, fsType: string)
    requires "mount_point" in c && c["mount_point"].Str? && h.IsFile(filename)
    requires Classify.IsPackage(filename) || Repos.Migrated(c) == Ok(false)
    requires h.IsDir(Paths.Join(c["mount_point"].s, Repos.Folder(filename)))
    requires var dest := Paths.Join3(c["mount_point"].s, Repos.Folder(filename), Paths.Basename(filename));
      !h.IsDir(dest) && dest != filename
    ensures var s := if Classify.IsPackage(filename) then CopyPkgSpec(Local, fsType, c, h, filename, id)
                     else CopyScriptSpec(Local, fsType, c, h, filename, id);
      s.result.Ok? && ExistsSpec(Local, fsType, s.conn, s.host, Paths.Basename(filename)).result == Ok(true)
  {
    LocalCopyIsCopyInto(c, h, filename, id, fsType);
    Repos.CopyThenExistsOnShare(c, h, filename);
  }

  /** Into a local repository whose Packages or Scripts folder is missing,
      the copy of a file raises IOError naming the destination. */
  lemma LocalCopyWithoutFolder(c: Connection, h: HostState, filename: string, id: int, fsType: string)
    requires "mount_point" in c && c["mount_point"].Str? && h.IsFile(filename)
    requires Classify.IsPackage(filename) || Repos.Migrated(c) == Ok(false)
    requires !h.IsDir(Paths.Join(c["mount_point"].s, Repos.Folder(filename)))
    requires Paths.Join3(c["mount_point"].s, Repos.Folder(filename), Paths.Basename(filename)) != filename
    ensures var s := if Classify.IsPackage(filename) then CopyPkgSpec(Local, fsType, c, h, filename, id)
                     else CopyScriptSpec(Local, fsType, c, h, filename, id);
      s.result == Err(IOError(Paths.Join3(c["mount_point"].s, Repos.Folder(filename), Paths.Basename(filename))))
      && s.host == h
  {
    var folder := Repos.Folder(filename);
    var dest := Paths.Join3(c["mount_point"].s, folder, Paths.Basename(filename));
    Repos.DestinationFolder(c, folder, filename);
    Paths.JoinEndsInComponent(c["mount_point"].s, folder);
    LocalCopyIsCopyInto(c, h, filename, id, fsType);
    Repos.CopyIntoErrors(h, filename, dest);
  }

  /** A server never uploads a directory: it raises before anything is sent. */
  lemma ServerRejectsDirectory(k: Kind, fsType: string, c: Connection, h: HostState, filename: string, id: int)
    requires k.Server() && h.IsDir(filename)
    ensures CopyPkgSpec(k, fsType, c, h, filename, id) == Step(c, h, Err(UnsupportedFileType))
    ensures CopyScriptSpec(k, fsType, c, h, filename, id) == Step(c, h, Err(UnsupportedFileType))
  {
  }

  /** An upload opens the file before it reads the connection: a server
      copy, or a script copy to a migrated JSS, of a file that is not there
      raises IOError and sends nothing. */
  lemma MissingFileNotSent(k: Kind, fsType: string, c: Connection, h: HostState, filename: string, id: int)
    requires !h.Exists(filename)
    ensures k.Server() ==> CopyPkgSpec(k, fsType, c, h, filename, id) == Step(c, h, Err(IOError(filename)))
    ensures k.Server() || Repos.Migrated(c) == Ok(true) ==>
      CopyScriptSpec(k, fsType, c, h, filename, id) == Step(c, h, Err(IOError(filename)))
  {
  }

  /** A server's upload of a file carries its DESTINATION code, the object
      id, the file type of the operation and the file's basename. */
  lemma ServerUploadHeaders(k: Kind, fsType: string, c: Connection, h: HostState, filename: string, id: int)
    requires k.Server() && h.IsFile(filename) && JssAt(c, "session").Ok? && StrAt(c, "upload_url").Ok?
    ensures CopyPkgSpec(k, fsType, c, h, filename, id).host.log == h.log +
      [Upload(c["upload_url"].s, Repos.UploadHeaders(DestinationCode(k), id, Classify.PKG_FILE_TYPE, filename), filename)]
    ensures CopyScriptSpec(k, fsType, c, h, filename, id).host.log == h.log +
      [Upload(c["upload_url"].s, Repos.UploadHeaders(DestinationCode(k), id, Classify.SCRIPT_FILE_TYPE, filename), filename)]
  {
  }
}
