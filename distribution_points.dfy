/** The older all-in-one distribution-point layer
    (jss/distribution_points.py): AFP and SMB shares and the JDS, each an
    object whose `connection` dictionary its methods rewrite, and the
    `DistributionPoints` container that builds them from preferences and
    fans every operation out over its list of repositories. */
module DistributionPoints {
  import opened Errors
  import opened Text
  import opened Host
  import Paths
  import Classify
  import Mounting
  import Repos

  datatype Kind = Afp | Smb | Jds {
    /** AFPDistributionPoint and SMBDistributionPoint are MountedRepository
        subclasses: they have `mount` and `umount`; a JDS has neither. */
    predicate Mountable() { this != Jds }
  }

  function RequiredAttrs(k: Kind): set<string> {
    match k
    case Afp => {"URL", "mount_point", "username", "password", "share_name"}
    case Smb => {"URL", "share_name", "mount_point", "domain", "username", "password"}
    case Jds => {"jss"}
  }

  /** `fs_type`: the type the mount table shows; MountedRepository's default
      for anything else. */
  function FsType(k: Kind): string {
    match k
    case Afp => "afpfs"
    case Smb => "smbfs"
    case Jds => "undefined"
  }

  /** `protocol`, the `-t` argument of `mount`. */
  function Protocol(k: Kind): string
    requires k.Mountable()
  {
    if k == Afp then "afp" else "smbfs"
  }

  /** `_build_url`: the mount URL of a share, or the upload and delete URLs
      of the JSS behind a JDS. */
  function BuildUrl(k: Kind, c: Connection): Result<Connection> {
    match k
    case Afp =>
      Ok(c["mount_url" := Str(Mounting.AfpMountUrl(Get(c, "username"), Get(c, "password"),
                                                   Get(c, "URL"), Get(c, "port"), Get(c, "share_name")))])
    case Smb =>
      Ok(c["mount_url" := Str(Mounting.SmbMountUrl(Get(c, "domain"), Get(c, "username"), Get(c, "password"),
                                                   Get(c, "URL"), Get(c, "port"), Get(c, "share_name")))])
    case Jds =>
      match JssAt(c, "base_url")
      case Err(e) => Err(e)
      case Ok(j) =>
        Ok(c["upload_url" := Str(j.baseUrl + "/dbfileupload")]["delete_url" := Str(j.baseUrl + "/casperAdminSave.jxml")])
  }

  /** `Repository.__init__` and the subclass constructors: check
      `required_attrs`, copy the arguments, build the URLs; a JDS then takes
      its JSS's base URL as its URL. */
  function Construct(k: Kind, args: Connection): Result<Connection> {
    if !(RequiredAttrs(k) <= args.Keys) then Err(MissingArguments(RequiredAttrs(k) - args.Keys))
    else match BuildUrl(k, args)
      case Err(e) => Err(e)
      case Ok(c) =>
        if k == Jds then Ok(c["URL" := Str(c["jss"].jss.baseUrl)]) else Ok(c)
  }

  /** `is_mounted`: no operating-system check in this layer. */
  function IsMountedSpec(k: Kind, c: Connection, h: HostState): (Connection, Result<bool>) {
    Mounting.ReconcileSpec(c, h, FsType(k), "URL", false)
  }

  /** `mount`: when the share is not mounted, create a missing mount point
      and run `mount -t protocol mount_url mount_point`. */
  function MountSpec(k: Kind, c: Connection, h: HostState, nobrowse: bool): Step<()>
    requires k.Mountable()
  {
    var (c1, m) := IsMountedSpec(k, c, h);
    if m.Err? then Step(c1, h, Err(m.error))
    else if m.value then Step(c1, h, Ok(()))
    else match StrAt(c1, "mount_point")
      case Err(e) => Step(c1, h, Err(e))
      case Ok(mp) =>
        var h1 := if h.Exists(mp) then h else h.Do(MakeDir(mp));
        match Lookup(c1, "mount_url")
        case Err(e) => Step(c1, h1, Err(e))
        case Ok(url) => Step(c1, h1.Do(Run(Mounting.MountArgs("mount", Protocol(k), Render(url), mp, nobrowse))), Ok(()))
  }

  /** `umount`: unmount when the mount point exists, whether or not the
      share is the one mounted there. */
  function UmountSpec(k: Kind, c: Connection, h: HostState, forced: bool): Step<()>
    requires k.Mountable()
  {
    match StrAt(c, "mount_point")
    case Err(e) => Step(c, h, Err(e))
    case Ok(mp) =>
      if h.Exists(mp) then Step(c, h.Do(Run(Mounting.UmountArgs(h.os == Darwin, mp, forced))), Ok(()))
      else Step(c, h, Ok(()))
  }

  /** `if not self.is_mounted(): self.mount()`. */
  function AutoMountSpec(k: Kind, c: Connection, h: HostState): Step<()>
    requires k.Mountable()
  {
    var (c1, m) := IsMountedSpec(k, c, h);
    if m.Err? then Step(c1, h, Err(m.error))
    else if m.value then Step(c1, h, Ok(()))
    else MountSpec(k, c1, h, false)
  }

  /** `copy_pkg`/`copy_script` into `folder` of a share: the destination is
      joined from the mount point before `_copy` mounts. */
  function CopyToShare(k: Kind, c: Connection, h: HostState, filename: string, folder: string): Step<()>
    requires k.Mountable()
  {
    match Repos.Destination(c, folder, filename)
    case Err(e) => Step(c, h, Err(e))
    case Ok(dest) =>
      var a := AutoMountSpec(k, c, h);
      if a.result.Err? then a
      else
        var (h', r) := Repos.CopyInto(a.host, filename, dest);
        Step(a.conn, h', r)
  }

  /** `copy_pkg`: a JDS uploads with DESTINATION "1". */
  function CopyPkgSpec(k: Kind, c: Connection, h: HostState, filename: string, id: int): Step<()> {
    if k == Jds then Repos.ServerUpload(c, h, filename, id, Classify.PKG_FILE_TYPE, "1")
    else CopyToShare(k, c, h, filename, "Packages")
  }

  /** `copy_script`. */
  function CopyScriptSpec(k: Kind, c: Connection, h: HostState, filename: string, id: int): Step<()> {
    if k == Jds then Repos.ServerUpload(c, h, filename, id, Classify.SCRIPT_FILE_TYPE, "1")
    else match Repos.Migrated(c)
      case Err(e) => Step(c, h, Err(e))
      case Ok(migrated) =>
        if migrated then Repos.MigratedScriptUpload(c, h, filename, id)
        else CopyToShare(k, c, h, filename, "Scripts")
  }

  /** `delete`. */
  function DeleteSpec(k: Kind, c: Connection, h: HostState, filename: string): Step<()> {
    if k == Jds then Repos.ServerDelete(c, h, filename)
    else
      var a := AutoMountSpec(k, c, h);
      if a.result.Err? then a else Repos.DeleteOnShare(a.conn, a.host, filename)
  }

  /** `exists`: a share is looked at where it is, without mounting. */
  function ExistsSpec(k: Kind, c: Connection, h: HostState, filename: string): Result<bool> {
    if k == Jds then Repos.ServerExistsSpec(c, filename)
    else Repos.ExistsOnShare(c, h, filename)
  }

  /** An operation `DistributionPoints` fans out over its repositories. */
  datatype Op =
    | CopyPkgOp(filename: string, id: int)
    | CopyScriptOp(filename: string, id: int)
    | DeleteOp(filename: string)
    | MountOp
    | UmountOp(forced: bool)

  /** One repository's part of a fanned-out operation; a JDS has no `mount`
      or `umount` and is passed over (`hasattr`). */
  function ChildSpec(k: Kind, op: Op, c: Connection, h: HostState): Step<()> {
    match op
    case CopyPkgOp(f, id) => CopyPkgSpec(k, c, h, f, id)
    case CopyScriptOp(f, id) => CopyScriptSpec(k, c, h, f, id)
    case DeleteOp(f) => DeleteSpec(k, c, h, f)
    case MountOp => if k == Jds then Step(c, h, Ok(())) else MountSpec(k, c, h, false)
    case UmountOp(forced) => if k == Jds then Step(c, h, Ok(())) else UmountSpec(k, c, h, forced)
  }

  class Repository {
    const kind: Kind
    var connection: Connection

    constructor FromConnection(kind: Kind, connection: Connection)
      ensures this.kind == kind && this.connection == connection
    {
      this.kind := kind;
      this.connection := connection;
    }

    /** `AFPDistributionPoint(**args)`, `SMBDistributionPoint(**args)`,
        `JDS(**args)`. */
    static method Create(kind: Kind, args: Connection) returns (r: Result<Repository>)
      ensures r.Ok? <==> Construct(kind, args).Ok?
      ensures r.Err? ==> r.error == Construct(kind, args).error
      ensures r.Ok? ==> fresh(r.value) && r.value.kind == kind && r.value.connection == Construct(kind, args).value
    {
      var c := Construct(kind, args);
      if c.Err? {
        return Err(c.error);
      }
      var repo := new Repository.FromConnection(kind, c.value);
      r := Ok(repo);
    }

    method IsMounted(h: HostState) returns (r: Result<bool>)
      requires kind.Mountable()
      modifies this
      ensures (connection, r) == IsMountedSpec(kind, old(connection), h)
    {
      connection, r := Mounting.Reconcile(connection, h, FsType(kind), "URL", false);
    }

    method Mount(h: HostState, nobrowse: bool) returns (h': HostState, r: Result<()>)
      requires kind.Mountable()
      modifies this
      ensures Step(connection, h', r) == MountSpec(kind, old(connection), h, nobrowse)
    {
      var m := IsMounted(h);
      if m.Err? {
        return h, Err(m.error);
      }
      if m.value {
        return h, Ok(());
      }
      var mp := StrAt(connection, "mount_point");
      if mp.Err? {
        return h, Err(mp.error);
      }
      h' := h;
      if !h.Exists(mp.value) {
        h' := h.Do(MakeDir(mp.value));
      }
      var url := Lookup(connection, "mount_url");
      if url.Err? {
        return h', Err(url.error);
      }
      var args := Mounting.MountArgs("mount", Protocol(kind), Render(url.value), mp.value, nobrowse);
      h' := h'.Do(Run(args));
      r := Ok(());
    }

    method Umount(h: HostState, forced: bool) returns (h': HostState, r: Result<()>)
      requires kind.Mountable()
      ensures Step(connection, h', r) == UmountSpec(kind, connection, h, forced)
    {
      var mp := StrAt(connection, "mount_point");
      if mp.Err? {
        return h, Err(mp.error);
      }
      h' := h;
      if h.Exists(mp.value) {
        h' := h.Do(Run(Mounting.UmountArgs(h.os == Darwin, mp.value, forced)));
      }
      r := Ok(());
    }

    method AutoMount(h: HostState) returns (h': HostState, r: Result<()>)
      requires kind.Mountable()
      modifies this
      ensures Step(connection, h', r) == AutoMountSpec(kind, old(connection), h)
    {
      var m := IsMounted(h);
      if m.Err? {
        return h, Err(m.error);
      }
      if m.value {
        return h, Ok(());
      }
      h', r := Mount(h, false);
    }

    method CopyToShareStep(h: HostState, filename: string, folder: string) returns (h': HostState, r: Result<()>)
      requires kind.Mountable()
      modifies this
      ensures Step(connection, h', r) == CopyToShare(kind, old(connection), h, filename, folder)
    {
      var dest := Repos.Destination(connection, folder, filename);
      if dest.Err? {
        return h, Err(dest.error);
      }
      h', r := AutoMount(h);
      if r.Err? {
        return;
      }
      var copied := Repos.CopyInto(h', filename, dest.value);
      h', r := copied.0, copied.1;
    }

    method CopyPkg(h: HostState, filename: string, id: int) returns (h': HostState, r: Result<()>)
      modifies this
      ensures Step(connection, h', r) == CopyPkgSpec(kind, old(connection), h, filename, id)
    {
      if kind == Jds {
        var s := Repos.ServerUpload(connection, h, filename, id, Classify.PKG_FILE_TYPE, "1");
        return s.host, s.result;
      }
      h', r := CopyToShareStep(h, filename, "Packages");
    }

    method CopyScript(h: HostState, filename: string, id: int) returns (h': HostState, r: Result<()>)
      modifies this
      ensures Step(connection, h', r) == CopyScriptSpec(kind, old(connection), h, filename, id)
    {
      if kind == Jds {
        var s := Repos.ServerUpload(connection, h, filename, id, Classify.SCRIPT_FILE_TYPE, "1");
        return s.host, s.result;
      }
      var migrated := Repos.Migrated(connection);
      if migrated.Err? {
        return h, Err(migrated.error);
      }
      if migrated.value {
        var s := Repos.MigratedScriptUpload(connection, h, filename, id);
        return s.host, s.result;
      }
      h', r := CopyToShareStep(h, filename, "Scripts");
    }

    method Delete(h: HostState, filename: string) returns (h': HostState, r: Result<()>)
      modifies this
      ensures Step(connection, h', r) == DeleteSpec(kind, old(connection), h, filename)
    {
      if kind == Jds {
        var s := Repos.ServerDelete(connection, h, filename);
        return s.host, s.result;
      }
      h', r := AutoMount(h);
      if r.Err? {
        return;
      }
      var s := Repos.DeleteOnShare(connection, h', filename);
      h', r := s.host, s.result;
    }

    method Exists(h: HostState, filename: string) returns (r: Result<bool>)
      ensures r == ExistsSpec(kind, connection, h, filename)
    {
      if kind == Jds {
        r := Repos.ServerExists(connection, filename);
      } else {
        r := Repos.ExistsOnShare(connection, h, filename);
      }
    }

    /** `JDS.exists_using_casper`. */
    method ExistsUsingCasper(filename: string) returns (r: Result<bool>)
      requires kind == Jds
      ensures r.Ok? <==> JssAt(connection, "base_url").Ok? && JssAt(connection, "base_url").value.serverFileUrls != []
      ensures r.Ok? ==> (r.value <==> Repos.OnEveryServer(JssAt(connection, "base_url").value.serverFileUrls, filename))
    {
      r := Repos.ExistsUsingCasper(connection, filename);
    }

    /** The call `DistributionPoints` makes on this repository for `op`. */
    method Apply(op: Op, h: HostState) returns (h': HostState, r: Result<()>)
      modifies this
      ensures Step(connection, h', r) == ChildSpec(kind, op, old(connection), h)
    {
      match op
      case CopyPkgOp(f, id) => h', r := CopyPkg(h, f, id);
      case CopyScriptOp(f, id) => h', r := CopyScript(h, f, id);
      case DeleteOp(f) => h', r := Delete(h, f);
      case MountOp =>
        if kind == Jds {
          h', r := h, Ok(());
        } else {
          h', r := Mount(h, false);
        }
      case UmountOp(forced) =>
        if kind == Jds {
          h', r := h, Ok(());
        } else {
          h', r := Umount(h, forced);
        }
    }
  }

  // ---------------------------------------------------------------------------
  // Fanning out over the list of repositories

  /** The connections of a list of repositories, read in list order. */
  function ConnsOf(rs: seq<Repository>): (cs: seq<Connection>)
    reads rs
    ensures |cs| == |rs| && forall i :: 0 <= i < |rs| ==> cs[i] == rs[i].connection
  {
    if rs == [] then [] else ConnsOf(rs[..|rs| - 1]) + [rs[|rs| - 1].connection]
  }

  /** The connections after repository `i` changed its own to `c`: the same
      object may sit at several positions of the list. */
  function Replace(rs: seq<Repository>, cs: seq<Connection>, i: nat, c: Connection): (r: seq<Connection>)
    requires |cs| == |rs| && i < |rs|
    ensures |r| == |cs|
    ensures forall j :: 0 <= j < |rs| ==> r[j] == if rs[j] == rs[i] then c else cs[j]
  {
    seq(|cs|, j requires 0 <= j < |cs| => if rs[j] == rs[i] then c else cs[j])
  }

  /** Each repository from index `i` on in turn, stopping at the first
      exception: the connections, host and result afterwards. */
  function FanOut(rs: seq<Repository>, op: Op, cs: seq<Connection>, h: HostState, i: nat): (seq<Connection>, HostState, Result<()>)
    requires |cs| == |rs| && i <= |rs|
    decreases |rs| - i, 1
  {
    if i == |rs| then (cs, h, Ok(())) else AskThenGoOn(rs, op, cs, h, i)
  }

  /** Repository `i` is asked; an exception ends the fan-out there,
      otherwise it goes on from `i + 1`. */
  function AskThenGoOn(rs: seq<Repository>, op: Op, cs: seq<Connection>, h: HostState, i: nat): (seq<Connection>, HostState, Result<()>)
    requires |cs| == |rs| && i < |rs|
    decreases |rs| - i, 0
  {
    var s := ChildSpec(rs[i].kind, op, cs[i], h);
    var cs' := Replace(rs, cs, i, s.conn);
    if s.result.Err? then (cs', s.host, s.result)
    else FanOut(rs, op, cs', s.host, i + 1)
  }

  /** Past the last repository the fan-out has nothing left to do. */
  lemma FanOutEnd(rs: seq<Repository>, op: Op, cs: seq<Connection>, h: HostState)
    requires |cs| == |rs|
    ensures FanOut(rs, op, cs, h, |rs|) == (cs, h, Ok(()))
  {
  }

  /** Every repository's answer to `exists`, in list order. */
  function Answers(rs: seq<Repository>, cs: seq<Connection>, h: HostState, filename: string): (r: seq<Result<bool>>)
    requires |cs| == |rs|
    ensures |r| == |rs| && forall j :: 0 <= j < |rs| ==> r[j] == ExistsSpec(rs[j].kind, cs[j], h, filename)
  {
    seq(|rs|, j requires 0 <= j < |rs| => ExistsSpec(rs[j].kind, cs[j], h, filename))
  }

  /** The answers from index `i` on, AND-ed; the first exception is raised. */
  function AndFrom(answers: seq<Result<bool>>, i: nat): Result<bool>
    requires i <= |answers|
    decreases |answers| - i
  {
    if i == |answers| then Ok(true)
    else match answers[i]
      case Err(e) => Err(e)
      case Ok(b) =>
        match AndFrom(answers, i + 1)
        case Err(e) => Err(e)
        case Ok(rest) => Ok(b && rest)
  }

  lemma FanOutAt(rs: seq<Repository>, op: Op, cs: seq<Connection>, h: HostState, i: nat, s: Step<()>)
    requires |cs| == |rs| && i < |rs| && s == ChildSpec(rs[i].kind, op, cs[i], h)
    ensures s.result.Err? ==> FanOut(rs, op, cs, h, i) == (Replace(rs, cs, i, s.conn), s.host, s.result)
    ensures s.result.Ok? ==> FanOut(rs, op, cs, h, i) == FanOut(rs, op, Replace(rs, cs, i, s.conn), s.host, i + 1)
  {
    assert FanOut(rs, op, cs, h, i) == AskThenGoOn(rs, op, cs, h, i);
  }

  /** The list's connections once only repository `i` changed its own. */
  lemma ConnsReplace(rs: seq<Repository>, before: seq<Connection>, i: nat, c: Connection)
    requires |before| == |rs| && i < |rs| && rs[i].connection == c
    requires forall j :: 0 <= j < |rs| && rs[j] != rs[i] ==> rs[j].connection == before[j]
    ensures ConnsOf(rs) == Replace(rs, before, i, c)
  {
  }

  /** Invariant step of the fan-out loop: repository `i` answered with
      connection `c`, host `h'` and result `s`. */
  lemma VisitStep(rs: seq<Repository>, op: Op, target: (seq<Connection>, HostState, Result<()>), i: nat,
                  before: seq<Connection>, hBefore: HostState, h': HostState, s: Result<()>, c: Connection)
    requires |before| == |rs| && i < |rs|
    requires target == FanOut(rs, op, before, hBefore, i)
    requires Step(c, h', s) == ChildSpec(rs[i].kind, op, before[i], hBefore)
    ensures s.Err? ==> target == (Replace(rs, before, i, c), h', s)
    ensures s.Ok? ==> target == FanOut(rs, op, Replace(rs, before, i, c), h', i + 1)
  {
    FanOutAt(rs, op, before, hBefore, i, Step(c, h', s));
  }

  /** `exists` over the list from index `i`: every repository is asked,
      even after a False, and the answers are AND-ed. */
  function ExistsAll(rs: seq<Repository>, cs: seq<Connection>, h: HostState, filename: string, i: nat): Result<bool>
    requires |cs| == |rs| && i <= |rs|
  {
    AndFrom(Answers(rs, cs, h, filename), i)
  }

  /** `result` after the remaining answers come in. */
  function AndWith(acc: bool, r: Result<bool>): Result<bool> {
    match r
    case Err(e) => Err(e)
    case Ok(b) => Ok(acc && b)
  }

  lemma AndFromStep(answers: seq<Result<bool>>, i: nat, acc: bool)
    requires i < |answers|
    ensures answers[i].Err? ==> AndWith(acc, AndFrom(answers, i)) == Err(answers[i].error)
    ensures answers[i].Ok? ==> AndWith(acc, AndFrom(answers, i)) == AndWith(acc && answers[i].value, AndFrom(answers, i + 1))
  {
  }

  /** The AND of the answers is true exactly when each is true, and an
      exception exactly when some answer is one. */
  lemma {:induction false} AndFromIff(answers: seq<Result<bool>>, i: nat)
    requires i <= |answers|
    ensures AndFrom(answers, i) == Ok(true) <==> forall j :: i <= j < |answers| ==> answers[j] == Ok(true)
    ensures AndFrom(answers, i).Err? <==> exists j :: i <= j < |answers| && answers[j].Err?
    decreases |answers| - i
  {
    if i < |answers| {
      AndFromIff(answers, i + 1);
      if answers[i].Err? {
        assert exists j :: i <= j < |answers| && answers[j].Err?;
      }
      if AndFrom(answers, i + 1).Err? {
        var j :| i + 1 <= j < |answers| && answers[j].Err?;
        assert i <= j < |answers|;
      }
    }
  }

  /** A `distribution_points` preference entry (strings from the plist). */
  type Prefs = map<string, string>

  /** A DistributionPoint record from the JSS, as `findtext` sees it: the
      text of each element present. */
  type DpRecord = map<string, string>

  function FindText(rec: DpRecord, tag: string): Value {
    if tag in rec then Str(rec[tag]) else Null
  }

  function GetPref(repo: Prefs, key: string): Value {
    if key in repo then Str(repo[key]) else Null
  }

  /** The index of the first record named like the untyped entry. The
      entry's "name" is read once per record tried. */
  function FirstNamed(repo: Prefs, records: seq<DpRecord>, j: nat): (r: Result<Option<nat>>)
    requires j <= |records|
    ensures r.Ok? && r.value.Some? ==> j <= r.value.value < |records|
    decreases |records| - j
  {
    if j == |records| then Ok(None)
    else if "name" !in repo then Err(KeyError("name"))
    else if FindText(records[j], "name") == Str(repo["name"]) then Ok(Some(j))
    else FirstNamed(repo, records, j + 1)
  }

  /** The repository an untyped entry describes through the JSS record of
      the same name; None when the record's connection type is neither AFP
      nor SMB (then `dp` keeps its previous value). */
  function FromRecord(jss: Jss, repo: Prefs, rec: DpRecord): Result<Option<(Kind, Connection)>>
  {
    match FindText(rec, "share_name")
    case Null => Err(AttributeError("startswith"))   // os.path.join('/Volumes', None)
    case Str(share) =>
      var args := map[
        "URL" := FindText(rec, "ip_address"),
        "port" := FindText(rec, "share_port"),
        "share_name" := Str(share),
        "mount_point" := Str(Paths.Join("/Volumes", share)),
        "username" := FindText(rec, "read_write_username"),
        "password" := GetPref(repo, "password"),
        "jss" := Server(jss)];
      if FindText(rec, "connection_type") == Str("AFP") then Ok(Some((Afp, args)))
      else if FindText(rec, "connection_type") == Str("SMB") then
        Ok(Some((Smb, args["domain" := FindText(rec, "workgroup_or_domain")])))
      else Ok(None)
    case _ => Err(AttributeError("startswith"))
  }

  /** A record without a share name raises; an AFP record gives an AFP
      share, an SMB record an SMB share, any other type nothing; a share
      mounts at /Volumes/share_name with the record's address, the entry's
      password and the JSS. */
  lemma FromRecordOutcome(jss: Jss, repo: Prefs, rec: DpRecord)
    ensures FromRecord(jss, repo, rec).Ok? <==> FindText(rec, "share_name").Str?
    ensures var r := FromRecord(jss, repo, rec);
      r.Ok? ==> (r.value.None? <==> FindText(rec, "connection_type") !in {Str("AFP"), Str("SMB")})
    ensures var r := FromRecord(jss, repo, rec);
      r.Ok? && r.value.Some? ==>
        (r.value.value.0 == Afp <==> FindText(rec, "connection_type") == Str("AFP")) &&
        (r.value.value.0 == Smb <==> FindText(rec, "connection_type") == Str("SMB"))
    ensures var r := FromRecord(jss, repo, rec);
      r.Ok? && r.value.Some? ==>
        var conn := r.value.value.1;
        "mount_point" in conn && conn["mount_point"] == Str(Paths.Join("/Volumes", rec["share_name"])) &&
        "URL" in conn && conn["URL"] == FindText(rec, "ip_address") &&
        "password" in conn && conn["password"] == GetPref(repo, "password") &&
        "jss" in conn && conn["jss"] == Server(jss)
  {
  }

  /** `URL.split('://')[1]` when the URL has a scheme. */
  function StripScheme(url: string): (r: string)
    ensures !Contains(url, "://") ==> r == url
  {
    if Contains(url, "://") then
      SplitContains(url, "://");
      Split(url, "://")[1]
    else url
  }

  /** An explicitly typed AFP or SMB entry. */
  function Explicit(jss: Jss, repo: Prefs, k: Kind): Result<(Kind, Connection)>
    requires k.Mountable()
  {
    if "URL" !in repo then Err(KeyError("URL"))
    else if "share_name" !in repo then Err(KeyError("share_name"))
    else if "username" !in repo then Err(KeyError("username"))
    else if "password" !in repo then Err(KeyError("password"))
    else
      var port := if "port" in repo && repo["port"] != "" then repo["port"]
                  else if k == Afp then "548" else "139";
      var args := map[
        "URL" := Str(StripScheme(repo["URL"])),
        "port" := Str(port),
        "share_name" := Str(repo["share_name"]),
        "mount_point" := Str(Paths.Join("/Volumes", repo["share_name"])),
        "username" := Str(repo["username"]),
        "password" := Str(repo["password"]),
        "jss" := Server(jss)];
      Ok((k, if k == Smb then args["domain" := GetPref(repo, "domain")] else args))
  }

  /** What one preference entry asks for: a repository's kind and
      constructor arguments, or None when an untyped entry leaves `dp` as
      it was. */
  function FromPrefs(jss: Jss, repo: Prefs, records: seq<DpRecord>): Result<Option<(Kind, Connection)>>
  {
    if !Truthy(GetPref(repo, "type")) then
      match FirstNamed(repo, records, 0)
      case Err(e) => Err(e)
      case Ok(None) => Ok(None)
      case Ok(Some(j)) => FromRecord(jss, repo, records[j])
    else if repo["type"] == "AFP" || repo["type"] == "SMB" then
      match Explicit(jss, repo, if repo["type"] == "AFP" then Afp else Smb)
      case Err(e) => Err(e)
      case Ok(p) => Ok(Some(p))
    else if repo["type"] == "JDS" then Ok(Some((Jds, map["jss" := Server(jss)])))
    else Err(ValueError("Distribution Point Type not recognized."))
  }

  /** An entry whose type is not AFP, SMB or JDS raises ValueError; a
      repository built has the kind the type names and holds the JSS; an
      entry gives no repository only when its type is unset. */
  lemma FromPrefsOutcome(jss: Jss, repo: Prefs, records: seq<DpRecord>)
    ensures Truthy(GetPref(repo, "type")) && repo["type"] !in {"AFP", "SMB", "JDS"} ==>
      FromPrefs(jss, repo, records) == Err(ValueError("Distribution Point Type not recognized."))
    ensures var r := FromPrefs(jss, repo, records);
      r.Ok? && r.value.Some? && Truthy(GetPref(repo, "type")) ==>
        (r.value.value.0 == Afp <==> repo["type"] == "AFP") &&
        (r.value.value.0 == Smb <==> repo["type"] == "SMB") &&
        (r.value.value.0 == Jds <==> repo["type"] == "JDS")
    ensures var r := FromPrefs(jss, repo, records);
      r.Ok? && r.value.Some? ==> "jss" in r.value.value.1 && r.value.value.1["jss"] == Server(jss)
    ensures FromPrefs(jss, repo, records) == Ok(None) ==> !Truthy(GetPref(repo, "type"))
  {
    if !Truthy(GetPref(repo, "type")) {
      match FirstNamed(repo, records, 0)
      case Err(e) =>
      case Ok(None) =>
      case Ok(Some(j)) => FromRecordOutcome(jss, repo, records[j]);
    }
  }

  /** A position of the list built from preferences: a new repository, or
      the previous `dp` appended once more. */
  datatype Slot = Fresh(kind: Kind, conn: Connection) | Again

  /** The list `DistributionPoints.__init__` builds from entry `i` on. */
  /** What entry `i` appends: `dp` is unbound before the first append. */
  function SlotAt(jss: Jss, prefs: seq<Prefs>, records: seq<DpRecord>, i: nat): Result<Slot>
    requires i < |prefs|
  {
    match FromPrefs(jss, prefs[i], records)
    case Err(e) => Err(e)
    case Ok(None) => if i == 0 then Err(NameError("dp")) else Ok(Again)
    case Ok(Some((k, args))) =>
      match Construct(k, args)
      case Err(e) => Err(e)
      case Ok(c) => Ok(Fresh(k, c))
  }

  /** What each entry appends, in preference order. */
  function SlotResults(jss: Jss, prefs: seq<Prefs>, records: seq<DpRecord>): (r: seq<Result<Slot>>)
    ensures |r| == |prefs| && forall i :: 0 <= i < |prefs| ==> r[i] == SlotAt(jss, prefs, records, i)
  {
    seq(|prefs|, i requires 0 <= i < |prefs| => SlotAt(jss, prefs, records, i))
  }

  /** The slots from index `i` on, stopping at the first exception. */
  function Collect(results: seq<Result<Slot>>, i: nat): Result<seq<Slot>>
    requires i <= |results|
    decreases |results| - i
  {
    if i == |results| then Ok([])
    else
      match results[i]
      case Err(e) => Err(e)
      case Ok(s) =>
        match Collect(results, i + 1)
        case Err(e) => Err(e)
        case Ok(rest) => Ok([s] + rest)
  }

  /** The list `DistributionPoints.__init__` builds: one slot per entry, in
      preference order, or the error of the first entry that raises. */
  function Build(jss: Jss, prefs: seq<Prefs>, records: seq<DpRecord>): Result<seq<Slot>> {
    Collect(SlotResults(jss, prefs, records), 0)
  }

  /** Construction succeeds exactly when every entry does, giving one slot
      per entry in order; otherwise it gives the first failing entry's
      error. */
  lemma BuildOutcome(jss: Jss, prefs: seq<Prefs>, records: seq<DpRecord>)
    ensures Build(jss, prefs, records).Ok? <==> forall i :: 0 <= i < |prefs| ==> SlotAt(jss, prefs, records, i).Ok?
    ensures var r := Build(jss, prefs, records);
      r.Ok? ==> (|r.value| == |prefs| &&
        forall i :: 0 <= i < |prefs| ==> SlotAt(jss, prefs, records, i) == Ok(r.value[i]))
    ensures var r := Build(jss, prefs, records);
      r.Err? ==>
        exists i :: 0 <= i < |prefs| && SlotAt(jss, prefs, records, i) == Err(r.error) &&
          forall j :: 0 <= j < i ==> SlotAt(jss, prefs, records, j).Ok?
  {
    CollectAll(SlotResults(jss, prefs, records), 0);
  }

  /** Collecting from `from` on succeeds exactly when every result there
      does, giving them in order; otherwise it gives the first error. */
  lemma {:induction false} CollectAll(results: seq<Result<Slot>>, from: nat)
    requires from <= |results|
    ensures Collect(results, from).Ok? <==> forall j :: from <= j < |results| ==> results[j].Ok?
    ensures Collect(results, from).Ok? ==> (|Collect(results, from).value| == |results| - from &&
      forall j :: from <= j < |results| ==> results[j] == Ok(Collect(results, from).value[j - from]))
    ensures Collect(results, from).Err? ==>
      exists i :: from <= i < |results| && results[i] == Err(Collect(results, from).error) &&
        forall j :: from <= j < i ==> results[j].Ok?
    decreases |results| - from
  {
    if from < |results| {
      CollectAll(results, from + 1);
    }
  }

  lemma CollectStep(results: seq<Result<Slot>>, i: nat, done: seq<Slot>)
    requires i < |results|
    ensures results[i].Err? ==> Prepend(done, Collect(results, i)) == Err(results[i].error)
    ensures results[i].Ok? ==>
      Prepend(done, Collect(results, i)) == Prepend(done + [results[i].value], Collect(results, i + 1))
  {
    if results[i].Ok? && Collect(results, i + 1).Ok? {
      var rest := Collect(results, i + 1).value;
      assert done + ([results[i].value] + rest) == done + [results[i].value] + rest;
    }
  }

  lemma PrependNil(r: Result<seq<Slot>>)
    ensures Prepend([], r) == r
  {
    if r.Ok? {
      assert [] + r.value == r.value;
    }
  }

  /** Entry `j` yields a new repository that constructs without error. */
  predicate Builds(jss: Jss, repo: Prefs, records: seq<DpRecord>) {
    var e := FromPrefs(jss, repo, records);
    e.Ok? && e.value.Some? && Construct(e.value.value.0, e.value.value.1).Ok?
  }

  function Prepend(done: seq<Slot>, r: Result<seq<Slot>>): Result<seq<Slot>> {
    match r
    case Err(e) => Err(e)
    case Ok(rest) => Ok(done + rest)
  }

  /** The objects in `rs` are the ones `slots` describes. */
  predicate SlotsMatch(rs: seq<Repository>, slots: seq<Slot>)
    reads rs
  {
    |rs| == |slots| && forall k :: 0 <= k < |rs| ==> SlotMatches(rs, slots[k], k)
  }

  predicate SlotMatches(rs: seq<Repository>, slot: Slot, k: nat)
    requires k < |rs|
    reads rs
  {
    match slot
    case Fresh(kind, conn) => rs[k].kind == kind && rs[k].connection == conn
    case Again => k > 0 && rs[k] == rs[k - 1]
  }

  lemma SlotsMatchAppend(rs: seq<Repository>, slots: seq<Slot>, r: Repository, slot: Slot)
    requires SlotsMatch(rs, slots)
    requires slot.Fresh? ==> r.kind == slot.kind && r.connection == slot.conn
    requires slot.Again? ==> rs != [] && r == rs[|rs| - 1]
    ensures SlotsMatch(rs + [r], slots + [slot])
  {
    var rs', ss := rs + [r], slots + [slot];
    forall k | 0 <= k < |rs'|
      ensures SlotMatches(rs', ss[k], k)
    {
      if k < |rs| {
        assert SlotMatches(rs, slots[k], k);
        assert rs'[k] == rs[k] && ss[k] == slots[k];
        if k > 0 {
          assert rs'[k - 1] == rs[k - 1];
        }
      }
    }
  }

  /** Python's `list.pop(index)`: negative indices count from the end. */
  function PopIndex(index: int, n: nat): (r: Option<nat>)
    ensures r.Some? <==> -(n as int) <= index < n
    ensures r.Some? ==> r.value < n && (r.value - index) % n == 0
  {
    if 0 <= index < n then Some(index)
    else if -(n as int) <= index < 0 then Some(index + n)
    else None
  }

  class DistributionPoints {
    const jss: Jss
    /** `dp_info`: fetched from the JSS only when there are preferences. */
    var dpInfo: Option<seq<DpRecord>>
    var children: seq<Repository>

    constructor Empty(jss: Jss)
      ensures this.jss == jss && dpInfo == None && children == []
    {
      this.jss := jss;
      dpInfo := None;
      children := [];
    }

    /** `DistributionPoints(jss)` with the JSS's `repo_prefs` and, when
        those are not empty, the DistributionPoint records it returns. */
    static method Create(jss: Jss, prefs: seq<Prefs>, records: seq<DpRecord>) returns (r: Result<DistributionPoints>)
      ensures r.Ok? <==> Build(jss, prefs, records).Ok?
      ensures r.Err? ==> r.error == Build(jss, prefs, records).error
      ensures r.Ok? ==>
        (fresh(r.value) && r.value.jss == jss
         && r.value.dpInfo == (if prefs == [] then None else Some(records))
         && SlotsMatch(r.value.children, Build(jss, prefs, records).value))
    {
      var dps := new DistributionPoints.Empty(jss);
      if prefs == [] {
        return Ok(dps);
      }
      dps.dpInfo := Some(records);
      var built, slots := Children(jss, prefs, records);
      if built.Err? {
        return Err(built.error);
      }
      dps.children := built.value;
      r := Ok(dps);
    }

    /** The loop over `repo_prefs`: the repositories appended in order. */
    static method Children(jss: Jss, prefs: seq<Prefs>, records: seq<DpRecord>)
      returns (r: Result<seq<Repository>>, ghost slots: seq<Slot>)
      ensures r.Ok? <==> Build(jss, prefs, records).Ok?
      ensures r.Err? ==> r.error == Build(jss, prefs, records).error
      ensures r.Ok? ==> slots == Build(jss, prefs, records).value && SlotsMatch(r.value, slots)
    {
      slots := [];
      ghost var results := SlotResults(jss, prefs, records);
      PrependNil(Collect(results, 0));
      var built: seq<Repository> := [];
      var i := 0;
      while i < |prefs|
        invariant 0 <= i <= |prefs|
        invariant |built| == |slots| == i
        invariant Collect(results, 0) == Prepend(slots, Collect(results, i))
        invariant SlotsMatch(built, slots)
      {
        CollectStep(results, i, slots);
        var dp, slot := NextChild(jss, prefs, records, i, if i == 0 then None else Some(built[i - 1]));
        if dp.Err? {
          return Err(dp.error), slots;
        }
        SlotsMatchAppend(built, slots, dp.value, slot);
        built := built + [dp.value];
        slots := slots + [slot];
        i := i + 1;
      }
      assert Collect(results, i) == Ok([]);
      assert slots + [] == slots;
      r := Ok(built);
    }

    /** One pass of the loop over `repo_prefs`: the `dp` it appends. */
    static method NextChild(jss: Jss, prefs: seq<Prefs>, records: seq<DpRecord>, i: nat, prev: Option<Repository>)
      returns (r: Result<Repository>, ghost slot: Slot)
      requires i < |prefs| && (prev.Some? <==> i > 0)
      ensures r.Ok? <==> SlotAt(jss, prefs, records, i).Ok?
      ensures r.Err? ==> r.error == SlotAt(jss, prefs, records, i).error
      ensures r.Ok? ==> slot == SlotAt(jss, prefs, records, i).value
      ensures r.Ok? && slot.Fresh? ==> fresh(r.value) && r.value.kind == slot.kind && r.value.connection == slot.conn
      ensures r.Ok? && slot.Again? ==> r.value == prev.value
    {
      var entry := FromPrefsStep(jss, prefs[i], records);
      if entry.Err? {
        return Err(entry.error), Again;
      }
      if entry.value.None? {
        if prev.None? {
          return Err(NameError("dp")), Again;
        }
        return Ok(prev.value), Again;
      }
      var (k, args) := entry.value.value;
      var dp := Repository.Create(k, args);
      if dp.Err? {
        return Err(dp.error), Again;
      }
      r, slot := Ok(dp.value), Fresh(k, dp.value.connection);
    }

    /** The loop over `dp_info` for an untyped entry, then the entry's
        repository. */
    static method FromPrefsStep(jss: Jss, repo: Prefs, records: seq<DpRecord>) returns (r: Result<Option<(Kind, Connection)>>)
      ensures r == FromPrefs(jss, repo, records)
    {
      if !Truthy(GetPref(repo, "type")) {
        var j := 0;
        while j < |records|
          invariant 0 <= j <= |records|
          invariant FirstNamed(repo, records, 0) == FirstNamed(repo, records, j)
        {
          if "name" !in repo {
            return Err(KeyError("name"));
          }
          if FindText(records[j], "name") == Str(repo["name"]) {
            return FromRecord(jss, repo, records[j]);
          }
          j := j + 1;
        }
        return Ok(None);
      }
      r := FromPrefs(jss, repo, records);
    }

    /** `add_distribution_point`. */
    method Add(dp: Repository)
      modifies this
      ensures children == old(children) + [dp] && dpInfo == old(dpInfo)
    {
      children := children + [dp];
    }

    /** `remove_distribution_point`: IndexError outside the list. */
    method Remove(index: int) returns (r: Result<()>)
      modifies this
      ensures dpInfo == old(dpInfo)
      ensures PopIndex(index, |old(children)|).None? ==> r == Err(IndexError) && children == old(children)
      ensures PopIndex(index, |old(children)|).Some? ==>
        (var k := PopIndex(index, |old(children)|).value;
         r == Ok(()) && children == old(children)[..k] + old(children)[k + 1..])
    {
      var k := PopIndex(index, |children|);
      if k.None? {
        return Err(IndexError);
      }
      children := children[..k.value] + children[k.value + 1..];
      r := Ok(());
    }

    /** The `for repo in self._children` loop of each fanned-out operation. */
    method Visit(op: Op, h: HostState) returns (h': HostState, r: Result<()>)
      modifies children
      ensures (ConnsOf(children), h', r) == FanOut(children, op, old(ConnsOf(children)), h, 0)
    {
      var rs := children;
      h', r := VisitAll(rs, op, h);
    }

    /** The loop itself, over a list fixed before it starts. */
    static method VisitAll(rs: seq<Repository>, op: Op, h: HostState) returns (h': HostState, r: Result<()>)
      modifies rs
      ensures (ConnsOf(rs), h', r) == FanOut(rs, op, old(ConnsOf(rs)), h, 0)
    {
      ghost var target := FanOut(rs, op, ConnsOf(rs), h, 0);
      h' := h;
      var i := 0;
      while i < |rs|
        invariant 0 <= i <= |rs|
        invariant target == FanOut(rs, op, ConnsOf(rs), h', i)
      {
        var s;
        h', s := VisitAt(rs, op, target, i, h');
        if s.Err? {
          return h', s;
        }
        i := i + 1;
      }
      FanOutEnd(rs, op, ConnsOf(rs), h');
      r := Ok(());
    }

    /** One pass of that loop: repository `i` is asked, and the fan-out
        from the start either ends there or goes on from `i + 1`. */
    static method VisitAt(rs: seq<Repository>, op: Op, ghost target: (seq<Connection>, HostState, Result<()>), i: nat, h: HostState)
      returns (h': HostState, s: Result<()>)
      requires i < |rs|
      requires target == FanOut(rs, op, ConnsOf(rs), h, i)
      modifies rs
      ensures s.Err? ==> target == (ConnsOf(rs), h', s)
      ensures s.Ok? ==> target == FanOut(rs, op, ConnsOf(rs), h', i + 1)
    {
      var child := rs[i];
      ghost var before := ConnsOf(rs);
      h', s := child.Apply(op, h);
      ConnsReplace(rs, before, i, child.connection);
      VisitStep(rs, op, target, i, before, h, h', s, child.connection);
    }

    /** `copy`: every repository gets `copy_pkg` for a package name and
        `copy_script` otherwise, with the same id. */
    method Copy(h: HostState, filename: string, id: int) returns (h': HostState, r: Result<()>)
      modifies children
      ensures (ConnsOf(children), h', r) == FanOut(children,
        if Classify.IsPackage(filename) then CopyPkgOp(filename, id) else CopyScriptOp(filename, id),
        old(ConnsOf(children)), h, 0)
    {
      if Classify.IsPackage(filename) {
        h', r := Visit(CopyPkgOp(filename, id), h);
      } else {
        h', r := Visit(CopyScriptOp(filename, id), h);
      }
    }

    method CopyPkg(h: HostState, filename: string, id: int) returns (h': HostState, r: Result<()>)
      modifies children
      ensures (ConnsOf(children), h', r) == FanOut(children, CopyPkgOp(filename, id), old(ConnsOf(children)), h, 0)
    {
      h', r := Visit(CopyPkgOp(filename, id), h);
    }

    method CopyScript(h: HostState, filename: string, id: int) returns (h': HostState, r: Result<()>)
      modifies children
      ensures (ConnsOf(children), h', r) == FanOut(children, CopyScriptOp(filename, id), old(ConnsOf(children)), h, 0)
    {
      h', r := Visit(CopyScriptOp(filename, id), h);
    }

    method Delete(h: HostState, filename: string) returns (h': HostState, r: Result<()>)
      modifies children
      ensures (ConnsOf(children), h', r) == FanOut(children, DeleteOp(filename), old(ConnsOf(children)), h, 0)
    {
      h', r := Visit(DeleteOp(filename), h);
    }

    method Mount(h: HostState) returns (h': HostState, r: Result<()>)
      modifies children
      ensures (ConnsOf(children), h', r) == FanOut(children, MountOp, old(ConnsOf(children)), h, 0)
    {
      h', r := Visit(MountOp, h);
    }

    /** `umount`; `forced` defaults to true in the library. */
    method Umount(h: HostState, forced: bool) returns (h': HostState, r: Result<()>)
      modifies children
      ensures (ConnsOf(children), h', r) == FanOut(children, UmountOp(forced), old(ConnsOf(children)), h, 0)
    {
      h', r := Visit(UmountOp(forced), h);
    }

    /** `exists`: true when every repository has the file. */
    method Exists(h: HostState, filename: string) returns (r: Result<bool>)
      ensures r == ExistsAll(children, ConnsOf(children), h, filename, 0)
    {
      ghost var answers := Answers(children, ConnsOf(children), h, filename);
      var result := true;
      var i := 0;
      while i < |children|
        invariant 0 <= i <= |children|
        invariant AndFrom(answers, 0) == AndWith(result, AndFrom(answers, i))
      {
        var e := children[i].Exists(h, filename);
        assert e == answers[i];
        AndFromStep(answers, i, result);
        if e.Err? {
          return Err(e.error);
        }
        if !e.value {
          result := false;
        }
        i := i + 1;
      }
      r := Ok(result);
    }
  }

  // ---------------------------------------------------------------------------
  // Properties

  /** Construction fails with exactly the missing keys when
      `required_attrs` is not covered. */
  lemma ConstructRequiresAttrs(k: Kind, args: Connection)
    ensures Construct(k, args) == Err(MissingArguments(RequiredAttrs(k) - args.Keys)) <==> !(RequiredAttrs(k) <= args.Keys)
  {
    if RequiredAttrs(k) <= args.Keys && Construct(k, args).Err? {
      assert k == Jds && Construct(k, args).error == JssAt(args, "base_url").error;
    }
  }

  /** A share's mount URL is built from its own arguments; a JDS's URL is
      its JSS's base URL and it uploads to base URL + "/dbfileupload". */
  lemma ConstructUrls(k: Kind, args: Connection)
    requires RequiredAttrs(k) <= args.Keys
    ensures k.Mountable() ==> Construct(k, args).Ok? && "mount_url" in Construct(k, args).value
    ensures k == Afp ==> Construct(k, args).value["mount_url"] == Str(Mounting.AfpMountUrl(
      args["username"], args["password"], args["URL"], Get(args, "port"), args["share_name"]))
    ensures k == Jds && args["jss"].Server? ==>
      (Construct(k, args).Ok?
       && Construct(k, args).value["URL"] == Str(args["jss"].jss.baseUrl)
       && Construct(k, args).value["upload_url"] == Str(args["jss"].jss.baseUrl + "/dbfileupload"))
  {
  }

  /** `exists` is the AND of every repository's answer: true exactly when
      each says true (so an empty list says true), and an exception from any
      repository is raised. */
  lemma ExistsAllIff(rs: seq<Repository>, cs: seq<Connection>, h: HostState, filename: string)
    requires |cs| == |rs|
    ensures ExistsAll(rs, cs, h, filename, 0) == Ok(true) <==>
      forall j :: 0 <= j < |rs| ==> ExistsSpec(rs[j].kind, cs[j], h, filename) == Ok(true)
    ensures ExistsAll(rs, cs, h, filename, 0).Err? <==>
      exists j :: 0 <= j < |rs| && ExistsSpec(rs[j].kind, cs[j], h, filename).Err?
  {
    AndFromIff(Answers(rs, cs, h, filename), 0);
  }

  /** An upload opens the file before it reads the connection: a JDS copy,
      or a script copy to a migrated JSS, of a file that is not there raises
      IOError and sends nothing. */
  lemma MissingFileNotSent(k: Kind, c: Connection, h: HostState, filename: string, id: int)
    requires !h.Exists(filename)
    ensures k == Jds ==> CopyPkgSpec(k, c, h, filename, id) == Step(c, h, Err(IOError(filename)))
    ensures k == Jds || Repos.Migrated(c) == Ok(true) ==>
      CopyScriptSpec(k, c, h, filename, id) == Step(c, h, Err(IOError(filename)))
  {
  }

  /** A fanned-out copy of a missing file ends at the first JDS it reaches:
      that JDS raises IOError, and no later repository is asked. */
  lemma MissingFileStopsAtJds(rs: seq<Repository>, op: Op, cs: seq<Connection>, h: HostState, i: nat)
    requires op.CopyPkgOp? || op.CopyScriptOp?
    requires |cs| == |rs| && i < |rs| && rs[i].kind == Jds && !h.Exists(op.filename)
    requires forall j :: 0 <= j < |rs| && rs[j] == rs[i] ==> cs[j] == cs[i]
    ensures FanOut(rs, op, cs, h, i) == (cs, h, Err(IOError(op.filename)))
  {
    assert Replace(rs, cs, i, cs[i]) == cs;
    assert FanOut(rs, op, cs, h, i) == AskThenGoOn(rs, op, cs, h, i);
  }

  /** A JDS has no `mount` or `umount`: on a list of JDSs both do nothing. */
  lemma {:induction false} JdsNotMounted(rs: seq<Repository>, op: Op, cs: seq<Connection>, h: HostState, i: nat)
    requires op.MountOp? || op.UmountOp?
    requires |cs| == |rs| && i <= |rs| && forall j :: 0 <= j < |rs| ==> rs[j].kind == Jds
    requires forall j, k :: 0 <= j < |rs| && 0 <= k < |rs| && rs[j] == rs[k] ==> cs[j] == cs[k]
    ensures FanOut(rs, op, cs, h, i) == (cs, h, Ok(()))
    decreases |rs| - i
  {
    if i < |rs| {
      assert Replace(rs, cs, i, cs[i]) == cs;
      assert FanOut(rs, op, cs, h, i) == AskThenGoOn(rs, op, cs, h, i);
      JdsNotMounted(rs, op, cs, h, i + 1);
    }
  }

  /** `mount` runs nothing when the share is mounted; otherwise a mount
      ends with the `mount` command for the reconciled mount point, with
      "-o", "nobrowse" right after "mount" when asked. */
  lemma MountOnlyWhenUnmounted(k: Kind, c: Connection, h: HostState, nobrowse: bool)
    requires k.Mountable()
    ensures IsMountedSpec(k, c, h).1 == Ok(true) ==> MountSpec(k, c, h, nobrowse) == Step(IsMountedSpec(k, c, h).0, h, Ok(()))
    ensures MountSpec(k, c, h, nobrowse).result.Ok? && IsMountedSpec(k, c, h).1 == Ok(false) ==>
      var s := MountSpec(k, c, h, nobrowse);
      var c1 := IsMountedSpec(k, c, h).0;
      |s.host.log| > 0 && s.host.log[|s.host.log| - 1] ==
        Run(Mounting.MountArgs("mount", Protocol(k), Render(c1["mount_url"]), c1["mount_point"].s, nobrowse))
      && s.host.Exists(c1["mount_point"].s)
  {
  }

  /** `umount` changes nothing when the mount point does not exist, and
      otherwise runs exactly the unmount command. */
  lemma UmountOnlyWhenPresent(k: Kind, c: Connection, h: HostState, forced: bool)
    requires k.Mountable() && StrAt(c, "mount_point").Ok?
    ensures !h.Exists(c["mount_point"].s) ==> UmountSpec(k, c, h, forced) == Step(c, h, Ok(()))
    ensures h.Exists(c["mount_point"].s) ==>
      UmountSpec(k, c, h, forced).host.log == h.log + [Run(Mounting.UmountArgs(h.os == Darwin, c["mount_point"].s, forced))]
  {
  }

  /** Building from no preferences gives an empty list and asks the JSS for
      nothing. */
  lemma NoPrefsNoChildren(jss: Jss, records: seq<DpRecord>)
    ensures Build(jss, [], records) == Ok([])
  {
  }

  /** An entry whose type is set but is none of AFP, SMB, JDS raises
      ValueError, and so does the whole construction. */
  lemma UnknownTypeRaises(jss: Jss, prefs: seq<Prefs>, records: seq<DpRecord>, i: nat)
    requires i < |prefs| && "type" in prefs[i] && prefs[i]["type"] !in {"", "AFP", "SMB", "JDS"}
    requires forall j :: 0 <= j < i ==> Builds(jss, prefs[j], records)
    ensures Build(jss, prefs, records) == Err(ValueError("Distribution Point Type not recognized."))
  {
    var results := SlotResults(jss, prefs, records);
    UnknownTypeSlot(jss, prefs, records, i);
    forall j | 0 <= j < i ensures results[j].Ok? {
      BuildsSlot(jss, prefs, records, j);
    }
    CollectErrAt(results, 0, i);
  }

  lemma BuildsSlot(jss: Jss, prefs: seq<Prefs>, records: seq<DpRecord>, j: nat)
    requires j < |prefs| && Builds(jss, prefs[j], records)
    ensures SlotAt(jss, prefs, records, j).Ok?
  {
  }

  /** Building stops with the first entry that raises. */
  lemma {:induction false} CollectErrAt(results: seq<Result<Slot>>, from: nat, i: nat)
    requires from <= i < |results| && results[i].Err?
    requires forall j :: from <= j < i ==> results[j].Ok?
    ensures Collect(results, from) == Err(results[i].error)
    decreases i - from
  {
    if from < i {
      CollectErrAt(results, from + 1, i);
    }
  }

  lemma UnknownTypeSlot(jss: Jss, prefs: seq<Prefs>, records: seq<DpRecord>, i: nat)
    requires i < |prefs| && "type" in prefs[i] && prefs[i]["type"] !in {"", "AFP", "SMB", "JDS"}
    ensures SlotAt(jss, prefs, records, i) == Err(ValueError("Distribution Point Type not recognized."))
  {
    assert Truthy(GetPref(prefs[i], "type"));
  }

  /** Explicit AFP and SMB entries: the scheme is stripped from the URL,
      the port defaults to 548 (AFP) or 139 (SMB), and the share is mounted
      under /Volumes. */
  lemma ExplicitDefaults(jss: Jss, repo: Prefs, k: Kind)
    requires k.Mountable() && Explicit(jss, repo, k).Ok?
    ensures var args := Explicit(jss, repo, k).value.1;
      args["URL"] == Str(StripScheme(repo["URL"]))
      && args["mount_point"] == Str(Paths.Join("/Volumes", repo["share_name"]))
      && (("port" !in repo || repo["port"] == "") ==> args["port"] == Str(if k == Afp then "548" else "139"))
  {
  }

  /** With a scheme, the stripped URL is what follows the first "://". */
  lemma StripSchemeFollowsScheme(url: string)
    requires Contains(url, "://")
    ensures Split(url, "://")[0] + "://" + StripScheme(url) <= url
    ensures !Contains(Split(url, "://")[0], "://")
  {
    var ps := Split(url, "://");
    SplitContains(url, "://");
    JoinSplit(url, "://");
    JoinCons(ps[0], ps[1..], "://");
    assert [ps[0]] + ps[1..] == ps;
    JoinHead(ps[1..], "://");
    SplitFirstPieceFree(url, "://");
  }
}
