/** File operations and upload-server operations that the older
    (jss/distribution_points.py) and newer (jss/distribution_point.py)
    distribution-point layers share word for word: the Packages/Scripts
    destinations, copying and deleting on a mounted share, uploads to a
    JSS-controlled distribution server, and the two existence checks. */
module Repos {
  import opened Errors
  import opened Text
  import opened Host
  import Paths
  import Classify

  /** The repository folder a file of this name belongs in. */
  function Folder(filename: string): (f: string)
    ensures f == "Packages" <==> Classify.IsPackage(filename)
    ensures f == "Scripts" <==> Classify.IsScript(filename)
  {
    if Classify.IsPackage(filename) then "Packages" else "Scripts"
  }

  /** `os.path.join(connection["mount_point"], folder, basename(filename))`:
      where `copy_pkg` (folder "Packages") and `copy_script` (folder
      "Scripts") copy a file. */
  function Destination(c: Connection, folder: string, filename: string): Result<string> {
    match PathHead(c, "mount_point")
    case Err(e) => Err(e)
    case Ok(mp) => Ok(Paths.Join3(mp, folder, Paths.Basename(filename)))
  }

  /** The destination keeps the file's own name, inside the folder. */
  lemma DestinationName(c: Connection, folder: string, filename: string)
    requires Destination(c, folder, filename).Ok? && Paths.Basename(filename) != []
    ensures Paths.Basename(Destination(c, folder, filename).value) == Paths.Basename(filename)
    ensures Destination(c, folder, filename).value
         == Paths.Join(Paths.Join(c["mount_point"].s, folder), Paths.Basename(filename))
  {
    Paths.BasenameOfJoin(Paths.Join(c["mount_point"].s, folder), Paths.Basename(filename));
  }

  /** `FileRepository._copy` once mounted: a directory is copied as a tree,
      a file as a file, and a missing path is silently ignored.
      `shutil.copytree` starts with `os.makedirs(destination)`, which raises
      OSError when the destination already exists; `shutil.copyfile` raises
      shutil.Error when source and destination are the same file, and its
      `open(destination, "wb")` raises IOError on a directory or when the
      destination's directory is not there. */
  function CopyInto(h: HostState, filename: string, destination: string): (HostState, Result<()>) {
    if h.IsDir(filename) then
      if h.Exists(destination) then (h, Err(OSError(destination)))
      else (h.Do(CopyTree(filename, destination)), Ok(()))
    else if h.IsFile(filename) then
      if filename == destination then
        (h, Err(ShutilError("`" + filename + "` and `" + destination + "` are the same file")))
      else if h.IsDir(destination) || !FolderThere(h, Paths.Dirname(destination)) then
        (h, Err(IOError(destination)))
      else (h.Do(CopyFile(filename, destination)), Ok(()))
    else (h, Ok(()))
  }

  /** The directory a file is opened in: a path without '/' lies in the
      working directory, which is always there. */
  predicate FolderThere(h: HostState, dir: string) {
    dir == [] || h.IsDir(dir)
  }

  /** A copy succeeds exactly when the source is missing, or is a directory
      whose destination does not exist yet, or is a file other than the
      destination whose destination is no directory and sits in an existing
      folder. A successful copy of an existing source leaves at the
      destination what the source held; a failed one changes nothing. The
      OS and the mount table never change. */
  lemma CopyIntoExists(h: HostState, filename: string, destination: string)
    ensures var (h', r) := CopyInto(h, filename, destination);
      r.Ok? <==> (!h.Exists(filename)
                  || (h.IsDir(filename) && !h.Exists(destination))
                  || (h.IsFile(filename) && filename != destination && !h.IsDir(destination)
                      && FolderThere(h, Paths.Dirname(destination))))
    ensures var (h', r) := CopyInto(h, filename, destination);
      h.Exists(filename) && r.Ok? ==>
        h'.fs == h.fs[destination := h.fs[filename]]
        && h'.log == h.log + [if h.IsDir(filename) then CopyTree(filename, destination) else CopyFile(filename, destination)]
    ensures var (h', r) := CopyInto(h, filename, destination);
      h'.os == h.os && h'.mountTable == h.mountTable && h'.mounted == h.mounted
    ensures var (h', r) := CopyInto(h, filename, destination);
      r.Ok? ==> (h'.Exists(destination) <==> h.Exists(filename) || h.Exists(destination))
    ensures var (h', r) := CopyInto(h, filename, destination);
      r.Err? || !h.Exists(filename) ==> h' == h
  {
  }

  /** The three failures, each with the path it names. */
  lemma CopyIntoErrors(h: HostState, filename: string, destination: string)
    ensures h.IsDir(filename) && h.Exists(destination) ==>
      CopyInto(h, filename, destination).1 == Err(OSError(destination))
    ensures h.IsFile(filename) && filename == destination ==>
      CopyInto(h, filename, destination).1.Err? && CopyInto(h, filename, destination).1.error.ShutilError?
    ensures (h.IsFile(filename) && filename != destination
             && (h.IsDir(destination) || !FolderThere(h, Paths.Dirname(destination)))) ==>
      CopyInto(h, filename, destination).1 == Err(IOError(destination))
  {
  }

  /** A destination built by `Destination` lies in the repository folder
      under the mount point. */
  lemma DestinationFolder(c: Connection, folder: string, filename: string)
    requires Destination(c, folder, filename).Ok? && folder != [] && '/' !in folder
    ensures Paths.Dirname(Destination(c, folder, filename).value) == Paths.Join(c["mount_point"].s, folder)
  {
    Paths.JoinEndsInComponent(c["mount_point"].s, folder);
    Paths.DirnameOfJoin(Paths.Join(c["mount_point"].s, folder), Paths.Basename(filename));
  }

  /** The path of `filename` (no directory part) on the share. */
  function PathOnShare(c: Connection, filename: string): Result<string> {
    match PathHead(c, "mount_point")
    case Err(e) => Err(e)
    case Ok(mp) => Ok(Paths.Join3(mp, Folder(filename), filename))
  }

  /** `FileRepository.delete` once mounted: remove a tree or a file. It
      raises only when the connection has no string `mount_point`, and then
      changes nothing; otherwise the path is gone and nothing else is. */
  function DeleteOnShare(c: Connection, h: HostState, filename: string): Step<()> {
    match PathOnShare(c, filename)
    case Err(e) => Step(c, h, Err(e))
    case Ok(path) => Step(c, RemovePath(h, path), Ok(()))
  }

  /** Deleting on a share keeps the connection and succeeds exactly when it
      has a string mount_point; a failure changes nothing, a success
      removes exactly the file's path. A missing mount_point raises
      KeyError, one that is not a string AttributeError from
      `os.path.join`. */
  lemma DeleteOnShareEffect(c: Connection, h: HostState, filename: string)
    ensures var r := DeleteOnShare(c, h, filename);
      r.conn == c &&
      (r.result.Ok? <==> "mount_point" in c && c["mount_point"].Str?) &&
      (r.result.Err? ==> r.host == h) &&
      (r.result.Ok? ==> r.host.fs == h.fs - {PathOnShare(c, filename).value})
    ensures "mount_point" !in c ==> DeleteOnShare(c, h, filename).result == Err(KeyError("mount_point"))
    ensures "mount_point" in c && !c["mount_point"].Str? ==>
      DeleteOnShare(c, h, filename).result == Err(AttributeError("endswith"))
  {
  }

  /** `shutil.rmtree` for a directory, `os.remove` for a file. */
  function RemovePath(h: HostState, path: string): (h': HostState)
    ensures h'.fs == h.fs - {path}
  {
    if h.IsDir(path) then h.Do(RemoveTree(path))
    else if h.IsFile(path) then h.Do(RemoveFile(path))
    else h
  }

  /** `FileRepository.exists` once mounted: whether anything is at the
      file's path in its folder of the share. */
  function ExistsOnShare(c: Connection, h: HostState, filename: string): Result<bool> {
    match PathOnShare(c, filename)
    case Err(e) => Err(e)
    case Ok(path) => Ok(h.Exists(path))
  }

  /** A file copied into its folder of a share whose folder exists, onto a
      destination that is neither a directory nor the file itself, then
      `exists` there under its basename. */
  lemma CopyThenExistsOnShare(c: Connection, h: HostState, filename: string)
    requires "mount_point" in c && c["mount_point"].Str? && h.IsFile(filename)
    requires h.IsDir(Paths.Join(c["mount_point"].s, Folder(filename)))
    requires var dest := Paths.Join3(c["mount_point"].s, Folder(filename), Paths.Basename(filename));
      !h.IsDir(dest) && dest != filename
    ensures var copied := CopyInto(h, filename, Paths.Join3(c["mount_point"].s, Folder(filename), Paths.Basename(filename)));
      copied.1.Ok? && ExistsOnShare(c, copied.0, Paths.Basename(filename)) == Ok(true)
  {
    var folder := Folder(filename);
    var dest := Paths.Join3(c["mount_point"].s, folder, Paths.Basename(filename));
    DestinationFolder(c, folder, filename);
    CopyFileInto(h, filename, dest, Paths.Join(c["mount_point"].s, folder));
    Classify.IsPackageOfBasename(filename);
    assert PathOnShare(c, Paths.Basename(filename)) == Ok(dest);
  }

  /** A file copied onto a path that is neither a directory nor itself, in
      an existing directory, lands there as a file. */
  lemma CopyFileInto(h: HostState, filename: string, destination: string, dir: string)
    requires h.IsFile(filename) && filename != destination && !h.IsDir(destination)
    requires Paths.Dirname(destination) == dir && h.IsDir(dir)
    ensures CopyInto(h, filename, destination) == (h.Do(CopyFile(filename, destination)), Ok(()))
    ensures CopyInto(h, filename, destination).0.IsFile(destination)
  {
  }

  /** The share answers exactly when the connection has a string
      mount_point, and then says whether anything is at the file's path. */
  lemma ExistsOnShareIff(c: Connection, h: HostState, filename: string)
    ensures ExistsOnShare(c, h, filename).Ok? <==> "mount_point" in c && c["mount_point"].Str?
    ensures ExistsOnShare(c, h, filename).Ok? ==>
      (ExistsOnShare(c, h, filename).value <==> Paths.Join3(c["mount_point"].s, Folder(filename), filename) in h.fs)
  {
  }

  /** After a delete the file is gone, and nothing else on the share moved. */
  lemma DeleteThenAbsent(c: Connection, h: HostState, filename: string)
    requires PathOnShare(c, filename).Ok?
    ensures DeleteOnShare(c, h, filename).result.Ok?
    ensures ExistsOnShare(c, DeleteOnShare(c, h, filename).host, filename) == Ok(false)
    ensures forall p :: p != PathOnShare(c, filename).value && p in h.fs ==>
      p in DeleteOnShare(c, h, filename).host.fs
  {
  }

  /** The headers of a dbfileupload request, in the order the library
      writes them. */
  function UploadHeaders(destination: string, id: int, fileType: nat, filename: string): seq<(string, string)> {
    [("DESTINATION", destination), ("OBJECT_ID", IntToString(id)),
     ("FILE_TYPE", NatToString(fileType)), ("FILE_NAME", Paths.Basename(filename))]
  }

  /** A header value by name. */
  function Header(headers: seq<(string, string)>, name: string): Option<string> {
    if headers == [] then None
    else if headers[0].0 == name then Some(headers[0].1)
    else Header(headers[1..], name)
  }

  /** Every upload names its destination, the target object (whose id is
      read back from the header), the file type and the file's basename. */
  lemma UploadHeadersRead(destination: string, id: int, fileType: nat, filename: string)
    ensures var hs := UploadHeaders(destination, id, fileType, filename);
      Header(hs, "DESTINATION") == Some(destination)
      && Header(hs, "OBJECT_ID").Some? && ParseInt(Header(hs, "OBJECT_ID").value) == Some(id)
      && Header(hs, "FILE_TYPE") == Some(NatToString(fileType))
      && Header(hs, "FILE_NAME") == Some(Paths.Basename(filename))
  {
    var hs := UploadHeaders(destination, id, fileType, filename);
    assert "DESTINATION"[0] == 'D' && "OBJECT_ID"[0] == 'O' && "FILE_TYPE"[0] == 'F' && "FILE_NAME"[0] == 'F';
    assert "FILE_TYPE"[5] == 'T' && "FILE_NAME"[5] == 'N';
    assert Header(hs, "OBJECT_ID") == Header(hs[1..], "OBJECT_ID") == Some(IntToString(id));
    assert hs[1..][1..] == hs[2..] && hs[2..][1..] == hs[3..];
    assert Header(hs, "FILE_TYPE") == Header(hs[1..], "FILE_TYPE") == Header(hs[2..], "FILE_TYPE");
    assert Header(hs, "FILE_NAME") == Header(hs[1..], "FILE_NAME") == Header(hs[2..], "FILE_NAME")
        == Header(hs[3..], "FILE_NAME");
    ParseIntToString(id);
  }

  /** `"jss" in connection and connection["jss"].jss_migrated`. */
  function Migrated(c: Connection): Result<bool> {
    if "jss" !in c then Ok(false)
    else match JssAt(c, "jss_migrated")
      case Err(e) => Err(e)
      case Ok(j) => Ok(j.migrated)
  }

  /** `open(filename, "rb")`, which every upload does before it builds its
      request: IOError for a path that is not a readable file (missing, or
      a directory). */
  function OpenForReading(h: HostState, filename: string): (r: Result<()>)
    ensures r.Ok? <==> h.IsFile(filename)
    ensures r.Err? ==> r.error == IOError(filename)
  {
    if h.IsFile(filename) then Ok(()) else Err(IOError(filename))
  }

  /** `_copy_script_migrated`: the script is opened, then posted to the JSS
      database through `connection["jss"].session`. */
  function MigratedScriptUpload(c: Connection, h: HostState, filename: string, id: int): Step<()> {
    if OpenForReading(h, filename).Err? then Step(c, h, Err(OpenForReading(h, filename).error))
    else match JssAt(c, "session")
      case Err(e) => Step(c, h, Err(e))
      case Ok(j) =>
        Step(c, h.Do(Upload(j.baseUrl + "/dbfileupload",
                            UploadHeaders("1", id, Classify.SCRIPT_FILE_TYPE, filename), filename)), Ok(()))
  }

  /** Posting a script to a migrated JSS keeps the connection; it succeeds
      exactly when the script is a file and the connection holds a JSS, and
      then adds exactly the upload to `base_url + "/dbfileupload"`; a
      missing script raises IOError before anything is read from the
      connection, and a failure changes nothing. */
  lemma MigratedScriptUploadShape(c: Connection, h: HostState, filename: string, id: int)
    ensures MigratedScriptUpload(c, h, filename, id).conn == c
    ensures MigratedScriptUpload(c, h, filename, id).result.Ok? <==>
      h.IsFile(filename) && "jss" in c && c["jss"].Server?
    ensures !h.IsFile(filename) ==> MigratedScriptUpload(c, h, filename, id) == Step(c, h, Err(IOError(filename)))
    ensures h.IsFile(filename) && "jss" in c && !c["jss"].Server? ==>
      MigratedScriptUpload(c, h, filename, id).result == Err(AttributeError("session"))
    ensures MigratedScriptUpload(c, h, filename, id).result.Ok? ==>
      MigratedScriptUpload(c, h, filename, id).host.log
        == h.log + [Upload(c["jss"].jss.baseUrl + "/dbfileupload",
                           UploadHeaders("1", id, Classify.SCRIPT_FILE_TYPE, filename), filename)]
    ensures MigratedScriptUpload(c, h, filename, id).result.Err? ==>
      MigratedScriptUpload(c, h, filename, id).host == h
  {
  }

  /** A distribution server's `_copy`: a directory raises
      JSSUnsupportedFileType before anything is sent; then the file is
      opened (IOError when it is missing), and posted through
      `connection["jss"].session` to `connection["upload_url"]`. */
  function ServerUpload(c: Connection, h: HostState, filename: string, id: int, fileType: nat, destination: string): Step<()> {
    if h.IsDir(filename) then Step(c, h, Err(UnsupportedFileType))
    else if OpenForReading(h, filename).Err? then Step(c, h, Err(OpenForReading(h, filename).error))
    else match JssAt(c, "session")
      case Err(e) => Step(c, h, Err(e))
      case Ok(_) =>
        match StrAt(c, "upload_url")
        case Err(e) => Step(c, h, Err(e))
        case Ok(url) => Step(c, h.Do(Upload(url, UploadHeaders(destination, id, fileType, filename), filename)), Ok(()))
  }

  /** Uploading never touches the connection; a directory leaves the host
      alone, a missing file raises IOError before the connection is read,
      and a successful upload adds exactly one request. */
  lemma ServerUploadShape(c: Connection, h: HostState, filename: string, id: int, fileType: nat, destination: string)
    ensures ServerUpload(c, h, filename, id, fileType, destination).conn == c
    ensures h.IsDir(filename) ==> ServerUpload(c, h, filename, id, fileType, destination) == Step(c, h, Err(UnsupportedFileType))
    ensures !h.Exists(filename) ==> ServerUpload(c, h, filename, id, fileType, destination) == Step(c, h, Err(IOError(filename)))
    ensures ServerUpload(c, h, filename, id, fileType, destination).result.Ok? <==>
      h.IsFile(filename) && JssAt(c, "session").Ok? && StrAt(c, "upload_url").Ok?
    ensures ServerUpload(c, h, filename, id, fileType, destination).result.Ok? ==>
      ServerUpload(c, h, filename, id, fileType, destination).host.log
        == h.log + [Upload(c["upload_url"].s, UploadHeaders(destination, id, fileType, filename), filename)]
    ensures ServerUpload(c, h, filename, id, fileType, destination).result.Err? ==>
      ServerUpload(c, h, filename, id, fileType, destination).host == h
  {
  }

  /** The API type a distribution server looks a file up as. */
  function ObjectType(filename: string): (t: string)
    ensures t == "Package" <==> Classify.IsPackage(filename)
    ensures t == "Script" <==> Classify.IsScript(filename)
  {
    if Classify.IsPackage(filename) then "Package" else "Script"
  }

  /** A distribution server's `delete`: the Package (for a package name) or
      Script object of that name is fetched and deleted through the API; an
      error of the fetch or of the DELETE propagates and nothing is deleted.
      The connection never changes. */
  function ServerDelete(c: Connection, h: HostState, filename: string): Step<()> {
    match JssAt(c, ObjectType(filename))
    case Err(e) => Step(c, h, Err(e))
    case Ok(j) =>
      var key := (ObjectType(filename), filename);
      if key in j.deleteErrors then Step(c, h, Err(j.deleteErrors[key]))
      else Step(c, h.Do(DeleteObject(key.0, filename)), Ok(()))
  }

  /** The server delete keeps the connection; it succeeds exactly when the
      connection holds a JSS that answers the fetch and the DELETE of that
      object without error, and then records that deletion; otherwise it
      raises the error and changes nothing. */
  lemma ServerDeleteOutcome(c: Connection, h: HostState, filename: string)
    ensures var r := ServerDelete(c, h, filename);
      r.conn == c &&
      (r.result.Ok? <==> JssAt(c, ObjectType(filename)).Ok? && (ObjectType(filename), filename) !in JssAt(c, ObjectType(filename)).value.deleteErrors) &&
      (r.result.Ok? ==> r.host == h.Do(DeleteObject(ObjectType(filename), filename))) &&
      (r.result.Err? ==> r.host == h)
    ensures JssAt(c, ObjectType(filename)).Ok? && (ObjectType(filename), filename) in JssAt(c, ObjectType(filename)).value.deleteErrors ==>
      ServerDelete(c, h, filename).result == Err(JssAt(c, ObjectType(filename)).value.deleteErrors[(ObjectType(filename), filename)])
  {
  }

  /** The `for package in packages` loop of `exists`: some record's
      `filename` text equals `filename`. */
  method CatalogHas(records: seq<Option<string>>, filename: string) returns (found: bool)
    ensures found <==> Some(filename) in records
  {
    found := false;
    var i := 0;
    while i < |records|
      invariant 0 <= i <= |records|
      invariant Some(filename) !in records[..i]
    {
      if records[i] == Some(filename) {
        found := true;
        break;
      }
      i := i + 1;
    }
    assert found || records[..i] == records;
  }

  /** A distribution server's `exists`: a Package record (for package names)
      or Script record (otherwise) carries exactly this filename. */
  function ServerExistsSpec(c: Connection, filename: string): Result<bool> {
    match JssAt(c, ObjectType(filename))
    case Err(e) => Err(e)
    case Ok(j) =>
      Ok(Some(filename) in (if Classify.IsPackage(filename) then j.packageFilenames else j.scriptFilenames))
  }

  method ServerExists(c: Connection, filename: string) returns (r: Result<bool>)
    ensures r == ServerExistsSpec(c, filename)
  {
    var j := JssAt(c, ObjectType(filename));
    if j.Err? {
      return Err(j.error);
    }
    var found;
    if Classify.IsPackage(filename) {
      found := CatalogHas(j.value.packageFilenames, filename);
    } else {
      found := CatalogHas(j.value.scriptFilenames, filename);
    }
    r := Ok(found);
  }

  /** The package basenames a distribution server lists in casper.jxml. */
  function Basenames(fileUrls: seq<string>): set<string> {
    set u | u in fileUrls :: Paths.Basename(u)
  }

  /** `filename` is listed by every distribution server. */
  predicate OnEveryServer(servers: seq<seq<string>>, filename: string) {
    forall k :: 0 <= k < |servers| ==> filename in Basenames(servers[k])
  }

  /** The set-building loop of `exists_using_casper`. */
  method BasenameSet(fileUrls: seq<string>) returns (names: set<string>)
    ensures names == Basenames(fileUrls)
  {
    names := {};
    for j := 0 to |fileUrls|
      invariant names == Basenames(fileUrls[..j])
    {
      assert fileUrls[..j + 1] == fileUrls[..j] + [fileUrls[j]];
      names := names + {Paths.Basename(fileUrls[j])};
    }
    assert fileUrls[..|fileUrls|] == fileUrls;
  }

  /** `exists_using_casper`: build one set of basenames per server, pop the
      last, intersect it with the others, test membership. With no server
      at all the pop raises IndexError. */
  method ExistsUsingCasper(c: Connection, filename: string) returns (r: Result<bool>)
    ensures r.Ok? <==> JssAt(c, "base_url").Ok? && JssAt(c, "base_url").value.serverFileUrls != []
    ensures JssAt(c, "base_url").Ok? && JssAt(c, "base_url").value.serverFileUrls == [] ==> r == Err(IndexError)
    ensures r.Ok? ==> (r.value <==> OnEveryServer(JssAt(c, "base_url").value.serverFileUrls, filename))
  {
    var j := JssAt(c, "base_url");
    if j.Err? {
      return Err(j.error);
    }
    var servers := j.value.serverFileUrls;
    var all: seq<set<string>> := [];
    for i := 0 to |servers|
      invariant |all| == i
      invariant forall k :: 0 <= k < i ==> all[k] == Basenames(servers[k])
    {
      var packages := BasenameSet(servers[i]);
      all := all + [packages];
    }
    if all == [] {
      return Err(IndexError);
    }
    var baseSet := all[|all| - 1];
    var rest := all[..|all| - 1];
    for k := 0 to |rest|
      invariant forall x :: x in baseSet <==> x in all[|all| - 1] && forall m :: 0 <= m < k ==> x in rest[m]
    {
      baseSet := baseSet * rest[k];
    }
    r := Ok(filename in baseSet);
    assert forall m :: 0 <= m < |servers| - 1 ==> rest[m] == all[m];
  }
}
