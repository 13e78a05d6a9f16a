/** The world a distribution point acts on, as a value: the operating system,
    the parsed mount table, which paths are mount points, the local file
    system, name resolution (and the names that do not resolve), the JSS the repository talks to, and the log of
    everything the library asks the system to do (commands, file copies,
    uploads). Commands are recorded, never executed. */
module Host {
  import opened Errors

  datatype Os = Darwin | Linux | OtherOs

  /** One line of `mount` output, already parsed: the whole line,
      the mount point the library's regular expression captures (if any), and
      the file-system type it captures (if any). */
  datatype MountRecord = MountRecord(line: string, mountPoint: Option<string>, fsType: Option<string>)

  datatype Entry = File | Dir

  /** What the library asked the system to do, in order. */
  datatype Effect =
    | Run(argv: seq<string>)                 // subprocess.check_call
    | MakeDir(path: string)                  // os.mkdir
    | CopyTree(source: string, target: string)
    | CopyFile(source: string, target: string)
    | RemoveTree(path: string)
    | RemoveFile(path: string)
    | Upload(url: string, headers: seq<(string, string)>, file: string)
    | DeleteObject(objectType: string, name: string)   // JSS API delete of a Package or Script

  /** The parts of a JSS object that distribution points use: its base URL,
      whether scripts live in its database, the `filename` text of every
      Package and Script record (None when the element is absent), and for
      every distribution server listed by casper.jxml the fileURL of each of
      its packages, and what the API answers when a Package or Script is
      fetched by name and deleted: the error raised (JSSGetError when no
      object has that name, JSSDeleteError when the DELETE fails), keyed by
      the object type and the name; a pair that is absent succeeds. */
  datatype Jss = Jss(
    baseUrl: string,
    migrated: bool,
    packageFilenames: seq<Option<string>>,
    scriptFilenames: seq<Option<string>>,
    serverFileUrls: seq<seq<string>>,
    deleteErrors: map<(string, string), Error>)

  /** A value stored in a repository's `connection` dictionary. */
  datatype Value = Str(s: string) | Null | Server(jss: Jss)

  /** Python truthiness of a connection value. */
  predicate Truthy(v: Value) {
    match v
    case Str(s) => s != ""
    case Null => false
    case Server(_) => true
  }

  /** `"%s" % v`. A JSS object's own repr is not modelled. */
  function Render(v: Value): string {
    match v
    case Str(s) => s
    case Null => "None"
    case Server(_) => "<JSS>"
  }

  type Connection = map<string, Value>

  /** `connection.get(key)`. */
  function Get(c: Connection, key: string): Value {
    if key in c then c[key] else Null
  }

  /** `connection[key]` used as a string: KeyError when absent, TypeError when
      the value is not a string. */
  function StrAt(c: Connection, key: string): (r: Result<string>)
    ensures r.Ok? <==> key in c && c[key].Str?
    ensures r.Ok? ==> c[key] == Str(r.value)
  {
    if key !in c then Err(KeyError(key))
    else if !c[key].Str? then Err(TypeError(key))
    else Ok(c[key].s)
  }

  /** `connection[key]` as the first argument of `os.path.join`: KeyError
      when absent; Python 2's posixpath calls `endswith` on it, so a value
      that is not a string raises AttributeError. */
  function PathHead(c: Connection, key: string): (r: Result<string>)
    ensures r.Ok? <==> key in c && c[key].Str?
    ensures r.Ok? ==> c[key] == Str(r.value)
    ensures key !in c ==> r == Err(KeyError(key))
    ensures key in c && !c[key].Str? ==> r == Err(AttributeError("endswith"))
  {
    if key !in c then Err(KeyError(key))
    else if !c[key].Str? then Err(AttributeError("endswith"))
    else Ok(c[key].s)
  }

  /** `connection["jss"].attr`: KeyError when there is no "jss" entry,
      AttributeError naming the attribute when the entry is not a JSS. */
  function JssAt(c: Connection, attr: string): (r: Result<Jss>)
    ensures r.Ok? <==> "jss" in c && c["jss"].Server?
    ensures r.Ok? ==> r.value == c["jss"].jss
    ensures "jss" !in c ==> r == Err(KeyError("jss"))
    ensures "jss" in c && !c["jss"].Server? ==> r == Err(AttributeError(attr))
  {
    if "jss" !in c then Err(KeyError("jss"))
    else if !c["jss"].Server? then Err(AttributeError(attr))
    else Ok(c["jss"].jss)
  }

  datatype HostState = HostState(
    os: Os,
    mountTable: seq<MountRecord>,
    mounted: set<string>,
    fs: map<string, Entry>,
    addresses: map<string, string>,
    unresolved: set<string>,
    fqdns: map<string, string>,
    log: seq<Effect>)
  {
    /** `os.path.ismount`. */
    predicate IsMount(p: string) { p in mounted }

    /** `os.path.exists`, `isdir`, `isfile`. */
    predicate Exists(p: string) { p in fs }
    predicate IsDir(p: string) { p in fs && fs[p] == Dir }
    predicate IsFile(p: string) { p in fs && fs[p] == File }

    /** `socket.gethostbyname`: socket.gaierror for a name that does not
        resolve; a name without an entry is already an address. */
    function HostByName(name: string): Result<string> {
      if name in unresolved then Err(GaiError(name))
      else if name in addresses then Ok(addresses[name])
      else Ok(name)
    }

    /** `socket.getfqdn`: an address without an entry is its own name. */
    function Fqdn(address: string): string {
      if address in fqdns then fqdns[address] else address
    }

    /** Records `e` and applies its effect on the file system: a created
        directory, a copied file or tree, a removed path. Commands and
        requests change nothing the model observes besides the log. */
    function Do(e: Effect): (h: HostState)
      ensures h.log == log + [e]
      ensures h.os == os && h.mountTable == mountTable && h.mounted == mounted
      ensures h.addresses == addresses && h.unresolved == unresolved && h.fqdns == fqdns
    {
      var fs' := match e
        case MakeDir(p) => fs[p := Dir]
        case CopyTree(_, t) => fs[t := Dir]
        case CopyFile(_, t) => fs[t := File]
        case RemoveTree(p) => fs - {p}
        case RemoveFile(p) => fs - {p}
        case _ => fs;
      this.(fs := fs', log := log + [e])
    }
  }

  /** What an operation leaves behind: the repository's connection, the
      host, and its value or the exception it raised. */
  datatype Step<T> = Step(conn: Connection, host: HostState, result: Result<T>)

  /** `connection[key]`: KeyError when absent. */
  function Lookup(c: Connection, key: string): (r: Result<Value>)
    ensures r.Ok? <==> key in c
    ensures r.Ok? ==> r.value == c[key]
  {
    if key in c then Ok(c[key]) else Err(KeyError(key))
  }

  /** `connection[k]` for each key in turn: KeyError for the first absent one. */
  function LookupAll(c: Connection, keys: seq<string>): (r: Result<seq<Value>>)
    ensures r.Ok? <==> forall i :: 0 <= i < |keys| ==> keys[i] in c
    ensures r.Ok? ==> |r.value| == |keys| && forall i :: 0 <= i < |keys| ==> r.value[i] == c[keys[i]]
  {
    if keys == [] then Ok([])
    else if keys[0] !in c then Err(KeyError(keys[0]))
    else match LookupAll(c, keys[1..])
      case Err(e) => Err(e)
      case Ok(vs) => Ok([c[keys[0]]] + vs)
  }
}
