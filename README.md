# python-jss in Dafny

A model of python-jss, the Python 2 client library for the Jamf Pro server
(the JSS) and its Classic (`/JSSResource`) and Jamf Pro ("uapi") APIs, with
proofs of what its code promises. The model covers:

- **Distribution points**, in both generations of the library
  (`jss/distribution_points.py` and `jss/distribution_point.py`): telling
  packages from scripts, building repositories from the JSS's records and the
  caller's preferences, mount URLs for AFP and SMB shares, reconciling a
  share's mount point with the mount table, the `mount`/`umount` command
  lines, where `copy_pkg`, `copy_script`, `delete` and `exists` act, the
  upload headers of distribution servers and `exists_using_casper`.
- **Transports**: the curl command line of `CurlAdapter`, curl's exit codes,
  and how `CurlResponseAdapter` and `RequestsResponseAdapter` read a reply.
- **The object layer**: `JSSObject` (urls, search keys, `_new`,
  `_set_xml_from_keys`, `set_bool`, list editing, `save`/`delete` guards,
  groups), the concrete classes of `jss/jssobjects.py` (scope, packages,
  categories, LDAP servers, file uploads), the `JSS` connection of
  `jss/jamf_software_server.py` (base url, credentials, status checks, the
  id of a created object, `get_object` dispatch, listings), the older
  connection and factory of `jss/jss.py`, `JSSObjectList`/`JSSListData`,
  `QuerySet` with Python 2's key ordering, UAPI objects and containers, and
  the endpoints of `jss/misc_endpoints.py`.
- **The smaller tools**: the uploader sketch `jss/upload.py`, the early
  script `jss.py`, `jss_helper.py` and the `Casper` element.

Every request, shell command and filesystem effect is a value the model
produces (a command line, a request record, an entry in the host's log) or
an input it is given (a reply's status and XML, the mount table, the set of
existing paths, the operating system, resolved host names); nothing is
sent or run. Python exceptions are an `Error` datatype carried in a
`Result`. The three identical pretty-printers (`indent` in `jss.py` and
`jss_helper.py`, `_indent` in `jss/casper.py`) are one function,
`Xml.Indented`, whose method `Xml.Indent` returns the indented copy.

Modules follow the source files: `Classify`, `Mounting`, `Repos`,
`DistributionPoints` and `DistributionPoint` (distribution points),
`CurlAdapter`, `ResponseAdapter`, `JssObject`, `JssObjects`,
`JamfSoftwareServer`, `JssLegacy`, `JssObjectList`, `QuerySet`, `Uapi`,
`MiscEndpoints`, `Upload`, `JssScript`, `JssHelper`, `Casper`; and the
shared `Errors`, `Text` (strings, `str.split`/`join`/`rstrip`, `int()`,
`urllib.quote`, UTF-8), `Paths` (`os.path`), `Xml` (ElementTree),
`Host` (the machine's state) and `Sorting` (stable `list.sort` by key).

## Model

| member | source | states |
|---|---|---|
| Classify.FileType | jss/distribution_point.py:650-670 | the FILE_TYPE code is 0 exactly for packages and 3 exactly for scripts |
| Classify.IsPackageIff | jss/distribution_points.py:905-916 | a name is a package iff its last four characters upper-case to ".PKG", ".DMG" or ".ZIP" and its last path component has a non-dot character before them; `is_script` is the exact negation |
| Classify.IsPackageCaseInsensitive | jss/distribution_points.py:905-907 | upper-casing a name never changes whether it is a package or a script |
| Classify.PackageExtensions | jss/distribution_points.py:905-907 | any plain stem followed by ".pkg", ".dmg" or ".zip" in any mix of cases is a package ("App.DMG", "archive.zip") |
| Classify.ScriptExamples | jss/distribution_points.py:909-916 | "postinstall.sh", "README" and the hidden file ".pkg" are scripts |
| Classify.IsPackageOfBasename | jss/distribution_points.py:905-907 | classification depends only on the last path component |
| Paths.ExtOfBasename | jss/distribution_points.py:905-907 | `splitext`'s extension depends only on the last path component |
| Text.QuoteRoundTrip | jss/distribution_points.py:583-586 | the quoted password percent-decodes to the UTF-8 bytes of the password, so quoting loses nothing |
| Text.QuoteAlphabet | jss/distribution_points.py:583-586 | a quoted password holds only letters, digits, "_.-", the listed safe characters and "%" |
| Mounting.AfpMountUrlRoundTrip | jss/distribution_points.py:624-640 | the AFP `mount_url` reads back as: credentials (username, and the password as UTF-8 bytes) exactly when both are non-empty, the URL as host, the port exactly when one is given, then the share |
| Mounting.AfpMountUrlWithoutAuth | jss/distribution_points.py:624-640 | without both username and password the AFP `mount_url` is "afp://" host, port and share, with no credentials |
| Mounting.AfpMountUrlWithoutPort | jss/distribution_points.py:624-640 | without a port the AFP `mount_url` has no ":port" part |
| Mounting.SmbMountUrlRoundTrip | jss/distribution_points.py:676-695 | the SMB `mount_url` reads back the same way, with the domain present exactly when credentials are written and the domain is set |
| Mounting.SmbMountUrlWithoutAuth | jss/distribution_points.py:676-695 | without both username and password the SMB `mount_url` is "//" host, port and share, with neither credentials nor domain |
| Mounting.SmbMountUrlWithoutDomain | jss/distribution_points.py:676-695 | without a domain the SMB `mount_url` is "//" credentials, host, port and share |
| Mounting.ValidMountStringsForms | jss/distribution_points.py:431-476 | the valid mount strings are exactly the eight host forms (the configured host, its address, its first DNS label and its fully qualified name, each with and without ":port"), each joined with the quoted share |
| Mounting.ValidMountStringsEndInShare | jss/distribution_points.py:431-476 | every valid mount string has the quoted share as its last path component |
| Mounting.FirstMatch | jss/distribution_points.py:391-418 | the index returned is a matching line with no matching line before it; none is returned only when no line matches |
| Mounting.ScanMountTable | jss/distribution_points.py:391-418 | the scanning loop stops at exactly the first matching mount line |
| Mounting.Deconflict | jss/distribution_points.py:420-426 | the renamed mount point is never one that is in use |
| Mounting.DeconflictIsFirstFree | jss/distribution_points.py:420-426 | the result is the configured path followed by "-1", "-2", … up to some k, and every shorter chain of suffixes names a mount point in use |
| Mounting.DeconflictFree | jss/distribution_points.py:420-426 | a mount point that is not in use is kept unchanged |
| Mounting.FreeMountPoint | jss/distribution_points.py:420-426 | the `while os.path.ismount` loop computes `Deconflict` with the count starting at 1 |
| Mounting.Reconcile | jss/distribution_point.py:287-351 | `is_mounted` yields the connection and answer `ReconcileSpec` describes, for both layers: the newer one refuses an unsupported OS; a url that is not a string, a host name that does not resolve, and a `jss` without `verbose` raise |
| Mounting.ReconcileHostErrors | jss/distribution_points.py:447-459 | with the url, port and a string share_name present, a url that is not a string raises AttributeError from `posixpath.join`, and a string url raises socket.gaierror exactly when it does not resolve; the connection is unchanged either way |
| Mounting.ReconcileVerboseErrors | jss/distribution_points.py:405-412 | when the first matching mount line yields a mount point, that point is adopted and reading `connection["jss"].verbose` then raises KeyError without a `jss` entry and AttributeError for a value that is not a JSS |
| Mounting.ReconcileAdoptsFirstMatch | jss/distribution_points.py:391-418 | when some line matches, the first matching line's captured mount point is adopted and the answer is `os.path.ismount` of it |
| Mounting.ReconcileWithoutMatch | jss/distribution_points.py:419-429 | when no line matches, the mount point becomes the first free "-1", "-2", … variant and the answer is false |
| Mounting.UmountForced | jss/distribution_points.py:348-366 | forcing inserts "force" at index 2 (diskutil) or "-f" at index 1 (umount), and removing it gives the unforced command; the mount point stays last |
| Mounting.MountNobrowse | jss/distribution_points.py:326-346 | `nobrowse` inserts exactly "-o", "nobrowse" right after "mount"; the mount point stays last |
| Host.JssAt | jss/distribution_point.py:640-648 | reading an attribute of `connection["jss"]` raises KeyError without a "jss" entry and AttributeError naming the attribute for a value that is not a JSS; otherwise it gives that JSS |
| Host.PathHead | jss/distribution_point.py:115-116 | `os.path.join` on `connection[key]` raises KeyError when the key is absent and AttributeError("endswith") from Python 2's posixpath when the value is not a string; otherwise it gives that string |
| Repos.Folder | jss/distribution_point.py:177-189 | the folder is "Packages" exactly for packages and "Scripts" exactly for scripts |
| Repos.DestinationName | jss/distribution_point.py:107-136 | the destination is mount_point/folder/basename(filename), and its own basename is the file's |
| Repos.DeleteOnShareEffect | jss/distribution_point.py:177-194 | `delete` raises only for a connection without a string mount_point, changing nothing: KeyError without one, AttributeError from `os.path.join` for one that is not a string; otherwise exactly the file's path in its folder leaves the file system |
| Repos.ExistsOnShareIff | jss/distribution_point.py:195-215 | `exists` raises only for a connection without a string mount_point; otherwise it is true iff something is at mount_point/folder/filename |
| Repos.CopyIntoExists | jss/distribution_point.py:161-176 | `_copy` succeeds iff the source is missing, or is a directory whose destination does not exist, or is a file other than the destination whose destination is no directory and whose folder exists; a successful copy leaves the source's entry at the destination (a tree for a directory, a file for a file) and the destination then exists iff the source or the destination did; a failed copy or a missing source changes nothing; the OS and mount table never change |
| Repos.CopyIntoErrors | jss/distribution_point.py:170-175 | `copytree` onto an existing path raises OSError, `copyfile` onto itself shutil.Error, and `copyfile` onto a directory or into a missing folder IOError naming the destination |
| Repos.CopyThenExistsOnShare | jss/distribution_point.py:161-215 | a file copied into an existing Packages or Scripts folder of a share, onto a destination that is neither a directory nor the file itself, succeeds and then `exists` there under its basename |
| Repos.CopyFileInto | jss/distribution_point.py:170-175 | a file copied onto a path that is neither a directory nor itself, in an existing directory, is recorded as that copy and lands there as a file |
| Repos.DestinationFolder | jss/distribution_point.py:107-136 | the destination's directory is mount_point/folder, so the copy needs that folder to exist |
| Repos.RemovePath | jss/distribution_point.py:177-194 | removing a path takes exactly that path out of the file system |
| Repos.DeleteThenAbsent | jss/distribution_point.py:177-210 | after `delete` the file no longer `exists`, and every other path on the host is still there |
| Repos.UploadHeadersRead | jss/distribution_point.py:684-685 | the upload headers carry DESTINATION, an OBJECT_ID that reads back as the id, the FILE_TYPE code and FILE_NAME = basename |
| Repos.ObjectType | jss/distribution_point.py:716-732 | the API type is "Package" exactly for package names and "Script" exactly for scripts |
| Repos.ServerDeleteOutcome | jss/distribution_point.py:716-732 | `delete` succeeds iff the connection holds a JSS and fetching and deleting the object of that type and name raises nothing; it then records exactly that deletion, and otherwise raises that error and changes nothing |
| Repos.ServerUploadShape | jss/distribution_point.py:672-690 | a directory raises JSSUnsupportedFileType and a missing file IOError from `open(filename, "rb")`, both before the connection is read; the upload goes through iff the path is a file, the connection holds a JSS and a string upload_url, and then exactly one upload of the file with those headers is posted to that url; a failure changes nothing; the connection never changes |
| Repos.OpenForReading | jss/distribution_point.py:684 | `open(filename, "rb")` succeeds exactly on a file and otherwise raises IOError naming the path |
| Repos.MigratedScriptUploadShape | jss/distribution_point.py:138-159 | `_copy_script_migrated` opens the script first, raising IOError for a missing one; it then posts iff the connection holds a JSS (AttributeError on `session` for anything else), adding exactly the upload to base_url + "/dbfileupload" with DESTINATION "1" and FILE_TYPE 3; a failure changes nothing; the connection never changes |
| Repos.CatalogHas | jss/distribution_point.py:754-766 | the loop finds the file iff some record's filename equals it exactly |
| Repos.ServerExists | jss/distribution_point.py:734-768 | `exists` searches the Package records for package names and the Script records otherwise |
| Repos.BasenameSet | jss/distribution_point.py:795-800 | the set-building loop collects exactly the basenames of the server's package fileURLs |
| Repos.ExistsUsingCasper | jss/distribution_point.py:770-808 | with at least one server the answer is true iff every server lists the file's basename; with none, the `pop` raises IndexError |
| DistributionPoint.Repository.FromConnection | jss/distribution_point.py:71-81 | a repository object holds its kind, its `fs_type` and the connection it was given |
| DistributionPoint.Repository.Create | jss/distribution_point.py:71-81 | construction fails exactly as `Construct` says (missing keys, `_build_url`, `jss` errors, and the AFP/SMB `is_mounted` run's errors, socket.gaierror for an unresolvable host and AttributeError for a url that is not a string or a `jss` without `verbose` among them); on success the new object's connection is the completed one and its `fs_type` the class's for the OS |
| DistributionPoint.Repository.IsMounted | jss/distribution_point.py:287-351 | `is_mounted` rewrites `connection` and answers as the shared reconciliation does, refusing an unsupported OS and raising its gaierror and AttributeError cases |
| DistributionPoint.Repository.Mount | jss/distribution_point.py:250-259 | `mount` changes the connection and host exactly as `MountSpec` describes |
| DistributionPoint.Repository.Umount | jss/distribution_point.py:265-285 | `umount` changes the connection and host exactly as `UmountSpec` describes |
| DistributionPoint.Repository.AutoMount | jss/distribution_point.py:48-56 | the decorator's step: `is_mounted()`, then `mount()` only when it answered false |
| DistributionPoint.Repository.CopyToShareStep | jss/distribution_point.py:399-409 | a mounted share's `_copy` auto-mounts, then copies to the destination, raising `shutil`'s OSError, shutil.Error or IOError as `CopyInto` does |
| DistributionPoint.Repository.CopyPkg | jss/distribution_point.py:107-116 | `copy_pkg` copies into Packages on a share, or on a server uploads with FILE_TYPE 0, raising IOError for a file that is not there |
| DistributionPoint.Repository.CopyScript | jss/distribution_point.py:118-136 | `copy_script` posts to dbfileupload on a migrated JSS and copies into Scripts otherwise; a server uploads with FILE_TYPE 3; both uploads raise IOError for a file that is not there |
| DistributionPoint.Repository.Delete | jss/distribution_point.py:177-194 | `delete` removes from Packages or Scripts on a share (after auto-mounting), or deletes the record on a server |
| DistributionPoint.Repository.Exists | jss/distribution_point.py:195-210 | `exists` looks in Packages or Scripts on a share (after auto-mounting), or searches the catalog on a server |
| DistributionPoint.Repository.ExistsUsingCasper | jss/distribution_point.py:770-808 | true iff every distribution server lists the file; an error with no servers |
| DistributionPoint.ConstructRequiresAttrs | jss/distribution_point.py:71-81 | construction raises JSSError naming exactly the missing keys iff `required_attrs` is not a subset of the keys given |
| DistributionPoint.ReconcileErrors | jss/distribution_point.py:287-351 | `is_mounted` raises only KeyError, TypeError, JSSError, AttributeError from `posixpath.join` on a url that is not a string or from reading `verbose` on a `jss` that is not a JSS, or socket.gaierror for a url that does not resolve |
| DistributionPoint.LocalUrl | jss/distribution_point.py:213-234 | a local repository with mount_point and share_name is built, and its url is "local://" + mount_point |
| DistributionPoint.ServerUrls | jss/distribution_point.py:632-648 | a server's url is its JSS's base URL and it uploads to base_url + "/dbfileupload" |
| DistributionPoint.MountOnlyWhenUnmounted | jss/distribution_point.py:250-259 | `mount` leaves the host alone when `is_mounted()` is true, does something only when it is false, and then ends with a command whose last argument is the mount point |
| DistributionPoint.MountWithShape | jss/distribution_point.py:250-259 | the same, once `is_mounted()` has answered |
| DistributionPoint.UmountOnlyWhenMounted | jss/distribution_point.py:265-285 | `umount` changes the host only when `is_mounted()` is true, and then runs exactly the diskutil/umount command, forced as asked |
| DistributionPoint.MountedShareNeedsNoMount | jss/distribution_point.py:411-431 | on a share that is mounted, `exists` and `delete` act on the share directly without mounting |
| DistributionPoint.LocalCopyIsCopyInto | jss/distribution_point.py:107-136 | in a local repository `copy_pkg` of a package and `copy_script` of a script on a JSS that is not migrated are `_copy` into the file's folder, with the connection unchanged |
| DistributionPoint.LocalCopyThenExists | jss/distribution_point.py:107-210 | a file copied into a local repository (a package, or a script on a JSS that is not migrated) whose Packages or Scripts folder exists, onto a destination that is neither a directory nor the file itself, then `exists` there under its basename |
| DistributionPoint.LocalCopyWithoutFolder | jss/distribution_point.py:161-176 | into a local repository without its Packages or Scripts folder, copying a file raises IOError naming the destination and changes nothing |
| DistributionPoint.ServerRejectsDirectory | jss/distribution_point.py:672-682 | a server's `copy_pkg` and `copy_script` raise JSSUnsupportedFileType for a directory and change nothing |
| DistributionPoint.ServerUploadHeaders | jss/distribution_point.py:650-690 | a server's upload of a file is one post to upload_url with DESTINATION "0"/"1"/"2" for the class, the id, FILE_TYPE 0 (packages) or 3 (scripts) and the basename |
| DistributionPoint.MissingFileNotSent | jss/distribution_point.py:138-159 | a server's `copy_pkg` or `copy_script`, or `copy_script` to a migrated JSS, of a file that is not there raises IOError and sends nothing |
| DistributionPoints.Repository.FromConnection | jss/distribution_points.py:282-289 | a repository object holds its kind and the connection it was given |
| DistributionPoints.Repository.Create | jss/distribution_points.py:282-296 | construction succeeds exactly when `Construct` does (required keys, then `_build_url`), and the new object holds the completed connection |
| DistributionPoints.Repository.IsMounted | jss/distribution_points.py:368-429 | `is_mounted` rewrites `connection` and answers as the shared reconciliation does, with no OS check; a `URL` that is not a string or a `jss` without `verbose` raises AttributeError, and a `URL` that does not resolve socket.gaierror |
| DistributionPoints.Repository.Mount | jss/distribution_points.py:326-346 | `mount` changes the connection and host exactly as `MountSpec` describes |
| DistributionPoints.Repository.Umount | jss/distribution_points.py:348-366 | `umount` acts exactly as `UmountSpec` describes and leaves the connection alone |
| DistributionPoints.Repository.AutoMount | jss/distribution_points.py:528-542 | the `if not self.is_mounted(): self.mount()` step |
| DistributionPoints.Repository.CopyToShareStep | jss/distribution_points.py:478-542 | copying into a share's folder mounts when needed, then copies to mount_point/folder/basename, raising `shutil`'s OSError, shutil.Error or IOError as `CopyInto` does |
| DistributionPoints.Repository.CopyPkg | jss/distribution_points.py:478-489 | `copy_pkg` copies into Packages on a share and uploads with DESTINATION "1" on a JDS, raising IOError there for a file that is not there |
| DistributionPoints.Repository.CopyScript | jss/distribution_points.py:490-526 | `copy_script` posts to a migrated JSS and copies into Scripts otherwise; a JDS uploads with FILE_TYPE 3; both uploads raise IOError for a file that is not there |
| DistributionPoints.MissingFileNotSent | jss/distribution_points.py:515-526 | a JDS's `copy_pkg` or `copy_script`, or `copy_script` to a migrated JSS, of a file that is not there raises IOError and sends nothing |
| DistributionPoints.MissingFileStopsAtJds | jss/distribution_points.py:753-771 | a fanned-out copy of a missing file that reaches a JDS ends there with IOError, asking no later repository and changing nothing |
| DistributionPoints.Repository.Delete | jss/distribution_points.py:543-560 | `delete` removes from Packages or Scripts on a share, or deletes the record on a JDS |
| DistributionPoints.Repository.Exists | jss/distribution_points.py:561-576 | `exists` looks in Packages or Scripts where the share is, without mounting, or searches the catalog on a JDS |
| DistributionPoints.Repository.ExistsUsingCasper | jss/distribution_points.py:873-894 | true iff every distribution server lists the file; an error (the `pop` of an empty list) when there are no servers |
| DistributionPoints.Repository.Apply | jss/distribution_points.py:188-250 | the call the list makes on one repository for each fanned-out operation; a JDS has no `mount`/`umount` and is skipped |
| DistributionPoints.ConnsOf | jss/distribution_points.py:188-250 | the connections of the list are read position by position |
| DistributionPoints.Replace | jss/distribution_points.py:188-250 | when a repository changes its connection, every position holding that same object sees the change and no other |
| DistributionPoints.Answers | jss/distribution_points.py:252-265 | one answer per repository, in list order |
| DistributionPoints.AndFromIff | jss/distribution_points.py:252-265 | the AND of the answers is true iff every answer is true, and an exception from any of them is raised |
| DistributionPoints.ExistsAllIff | jss/distribution_points.py:252-265 | `exists` is true iff every repository says true (so an empty list says true), and raises iff some repository raises |
| DistributionPoints.DistributionPoints.Visit | jss/distribution_points.py:188-250 | the `for repo in self._children` loop visits the repositories in list order and stops at the first exception |
| DistributionPoints.DistributionPoints.Copy | jss/distribution_points.py:188-203 | `copy` fans out `copy_pkg` for a package name and `copy_script` otherwise, with the same id to every repository |
| DistributionPoints.DistributionPoints.CopyPkg | jss/distribution_points.py:205-212 | `copy_pkg` fans out over the list in order |
| DistributionPoints.DistributionPoints.CopyScript | jss/distribution_points.py:214-221 | `copy_script` fans out over the list in order |
| DistributionPoints.DistributionPoints.Delete | jss/distribution_points.py:223-234 | `delete` fans out over the list in order |
| DistributionPoints.DistributionPoints.Mount | jss/distribution_points.py:236-240 | `mount` fans out over the repositories that have one |
| DistributionPoints.DistributionPoints.Umount | jss/distribution_points.py:242-250 | `umount` fans out over the repositories that have one, passing `forced` |
| DistributionPoints.DistributionPoints.Exists | jss/distribution_points.py:252-265 | `exists` asks every repository and ANDs the answers |
| DistributionPoints.DistributionPoints.Add | jss/distribution_points.py:180-182 | `add_distribution_point` appends exactly that object |
| DistributionPoints.DistributionPoints.Remove | jss/distribution_points.py:184-186 | `remove_distribution_point` removes the element `list.pop(index)` selects (negative indices from the end) and raises IndexError outside the list, leaving it unchanged |
| DistributionPoints.PopIndex | jss/distribution_points.py:184-186 | a valid index is in range and equals the given one modulo the length; invalid exactly outside -n..n-1 |
| DistributionPoints.DistributionPoints.Empty | jss/distribution_points.py:83-84 | an empty list that has not fetched any JSS records |
| DistributionPoints.DistributionPoints.Create | jss/distribution_points.py:66-178 | `DistributionPoints(jss)` succeeds exactly when `Build` does; the records are fetched only when there are preferences, and each position holds the repository its preference entry describes (a reused `dp` where an untyped entry found no record) |
| DistributionPoints.DistributionPoints.Children | jss/distribution_points.py:89-178 | the loop over `repo_prefs` appends, in order, the repositories `Build` describes, or raises the first entry's error |
| DistributionPoints.DistributionPoints.NextChild | jss/distribution_points.py:95-175 | one pass of the loop yields entry i's new repository, the previous `dp` again, or the entry's error |
| DistributionPoints.DistributionPoints.FromPrefsStep | jss/distribution_points.py:95-130 | the inner loop over `dp_info` for an untyped entry gives what `FromPrefs` says |
| DistributionPoints.FirstNamed | jss/distribution_points.py:101-102 | the record the loop over `dp_info` stops at is in range, at or after where the search began |
| DistributionPoints.SlotResults | jss/distribution_points.py:94-178 | one result per preference entry, in order |
| DistributionPoints.FromRecordOutcome | jss/distribution_points.py:95-130 | an untyped entry with a record raises iff the record has no share_name; an AFP record gives an AFP share, an SMB record an SMB share, any other type nothing; a share mounts at /Volumes/share_name with the record's address, the entry's password and the JSS |
| DistributionPoints.FromPrefsOutcome | jss/distribution_points.py:94-176 | an entry whose type is not AFP, SMB or JDS raises ValueError; a repository built has the kind the type names and holds the JSS; an entry gives no repository only when its type is unset |
| DistributionPoints.BuildOutcome | jss/distribution_points.py:86-178 | construction succeeds iff every entry does, giving one slot per entry in order; otherwise it raises the error of the first entry that fails |
| DistributionPoints.CollectAll | jss/distribution_points.py:94-178 | gathering the entries' results succeeds iff every result does, keeping them in order, and otherwise gives the first error |
| DistributionPoints.StripScheme | jss/distribution_points.py:136-137 | a URL without "://" is kept as it is |
| DistributionPoints.StripSchemeFollowsScheme | jss/distribution_points.py:136-137 | with a scheme, the stripped URL is what follows the first "://" |
| DistributionPoints.ConstructRequiresAttrs | jss/distribution_points.py:282-296 | construction raises with exactly the missing keys iff `required_attrs` is not covered |
| DistributionPoints.ConstructUrls | jss/distribution_points.py:624-728 | a share's `mount_url` is built from its own arguments; a JDS's URL is its JSS's base URL and it uploads to base_url + "/dbfileupload" |
| DistributionPoints.JdsNotMounted | jss/distribution_points.py:236-250 | on a list of JDSs `mount` and `umount` do nothing |
| DistributionPoints.MountOnlyWhenUnmounted | jss/distribution_points.py:326-346 | `mount` runs nothing when the share is mounted; otherwise it ends with the mount command for the reconciled mount point (which then exists), with "-o", "nobrowse" after "mount" when asked |
| DistributionPoints.UmountOnlyWhenPresent | jss/distribution_points.py:348-366 | `umount` changes nothing when the mount point does not exist, and otherwise runs exactly the unmount command |
| DistributionPoints.NoPrefsNoChildren | jss/distribution_points.py:86-88 | with no preferences the list is empty |
| DistributionPoints.UnknownTypeRaises | jss/distribution_points.py:172-175 | an entry whose type is set but is not AFP, SMB or JDS makes construction raise ValueError, once the entries before it build |
| DistributionPoints.UnknownTypeSlot | jss/distribution_points.py:172-175 | such an entry raises ValueError |
| DistributionPoints.CollectErrAt | jss/distribution_points.py:94-175 | building stops with the first entry that raises |
| DistributionPoints.ExplicitDefaults | jss/distribution_points.py:133-170 | explicit AFP and SMB entries get the scheme-stripped URL, the mount point /Volumes/share_name, and port "548" (AFP) or "139" (SMB) when none is given |
| CurlAdapter.CurlAdapter.constructor | jss/curl_adapter.py:84-87 | a new adapter has empty credentials, keeps `verify`, and uses TLS |
| CurlAdapter.CurlAdapter.AppendPairs | jss/curl_adapter.py:175-176 | appending pairs one by one adds the two arguments of each, in order |
| CurlAdapter.CurlAdapter.HeadArgs | jss/curl_adapter.py:155-170 | the arguments before the headers: curl, `-u user:password`, `--silent`, the write-out format, then the TLS options |
| CurlAdapter.CurlAdapter.AppendData | jss/curl_adapter.py:178-184 | the body arguments, added only when the body counts as true |
| CurlAdapter.CurlAdapter.BuildCommand | jss/curl_adapter.py:139-197 | `_build_command` returns exactly the argument list `Command` lays out |
| CurlAdapter.CurlAdapter.Get | jss/curl_adapter.py:89-90 | `get` sends only the caller's headers, with no body and no extra arguments |
| CurlAdapter.CurlAdapter.CollectHeaders | jss/curl_adapter.py:93-96 | the header list of post and put, built one header at a time |
| CurlAdapter.CurlAdapter.Post | jss/curl_adapter.py:92-99 | `post` sends the content type and the caller's headers, with `--request POST` |
| CurlAdapter.CurlAdapter.Put | jss/curl_adapter.py:101-108 | `put` is `post` with `--request PUT` |
| CurlAdapter.CurlAdapter.Delete | jss/curl_adapter.py:110-115 | `delete` sends `--request DELETE`; with data it adds the XML content type and `--data`, and raises TypeError when no header list was given |
| CurlAdapter.Flatten | jss/curl_adapter.py:175-193 | each pair gives two arguments |
| CurlAdapter.FlattenAt | jss/curl_adapter.py:175-193 | pair j sits at positions 2j and 2j+1 |
| CurlAdapter.HeaderPairs | jss/curl_adapter.py:175-176 | every header is preceded by `--header`, in order |
| CurlAdapter.FieldPairs | jss/curl_adapter.py:181-182 | every form field is `-F key=value`, in order |
| CurlAdapter.CommandEnds | jss/curl_adapter.py:156-164 | every command starts with curl, the credentials, `--silent` and the write-out format |
| CurlAdapter.FlagsIff | jss/curl_adapter.py:166-170 | `--insecure` iff verification is off, `--tlsv1` iff TLS is used |
| CurlAdapter.CommandOptions | jss/curl_adapter.py:164-176 | between the write-out format and the first header come exactly the TLS options |
| CurlAdapter.CommandHeaders | jss/curl_adapter.py:172-176 | the first header is always the Accept header, then the caller's headers in order |
| CurlAdapter.HeadersAt | jss/curl_adapter.py:172-176 | where each header lands in the command |
| CurlAdapter.HeaderInCommand | jss/curl_adapter.py:172-176 | every header the caller passes appears in the command |
| CurlAdapter.KwargsBeforeUrl | jss/curl_adapter.py:192-195 | the extra arguments come as key, value pairs right before the URL, which is last |
| CurlAdapter.PairsAt | jss/curl_adapter.py:192-195 | where each extra argument lands |
| CurlAdapter.RegroupTail | jss/curl_adapter.py:178-195 | the command's tail groups together |
| CurlAdapter.DataRendering | jss/curl_adapter.py:178-184 | no body arguments iff the body is false; a file is `--data-binary @name`, text is `--data text`, a dict is `-F key=value` per field |
| CurlAdapter.ContentType | jss/curl_adapter.py:93 | multipart/form-data iff files are given, else text/xml |
| CurlAdapter.RenderHeaders | jss/curl_adapter.py:95-96 | one rendered header per dict entry |
| CurlAdapter.RenderHeadersAt | jss/curl_adapter.py:95-96 | each is `key: value` |
| CurlAdapter.WriteHeaders | jss/curl_adapter.py:93-96 | the content type plus one header per caller header |
| CurlAdapter.WriteHeadersAt | jss/curl_adapter.py:93-96 | the content type comes first, then each caller header as `key: value`, in order |
| CurlAdapter.CurlErrorMessages | jss/curl_adapter.py:48-67 | a known exit code gives "CURL Error: " and its text; an unknown one gives "Unknown curl error: " followed by the code, which parses back to it |
| CurlAdapter.Complete | jss/curl_adapter.py:129-137 | a non-zero exit status raises JSSError with that message; ASCII output becomes the response adapter for the URL; other output raises the decode error |
| CurlAdapter.AsciiDecodes | jss/curl_adapter.py:130 | ASCII output, and every prefix of it, decodes without error |
| CurlAdapter.AsciiPrefixDecodes | jss/curl_adapter.py:130 | ASCII bytes are valid UTF-8 |
| CurlAdapter.RequestLast | jss/curl_adapter.py:192-195 | a single `--request` argument sits right before the URL |
| CurlAdapter.PostPutDiffer | jss/curl_adapter.py:92-108 | post and put give commands of the same length that differ only in the method |
| CurlAdapter.SameFront | jss/curl_adapter.py:92-108 | commands that differ in the method share everything before it |
| ResponseAdapter.LastIndexOf | jss/response_adapter.py:48 | the index of the last `|`: it holds `|`, nothing after it does, and None iff there is none |
| ResponseAdapter.LastIndexOfAt | jss/response_adapter.py:48 | the last `|` is found at its own index |
| ResponseAdapter.RPartition | jss/response_adapter.py:48 | `rpartition("|")`: the three parts put back together give the response, the last part has no `|`, the separator is present iff `|` is, and the head is empty without one |
| ResponseAdapter.Chars | jss/response_adapter.py:48-52 | bytes read one character per byte |
| ResponseAdapter.FromCurl | jss/response_adapter.py:46-56 | the response is kept; content, separator and suffix rebuild it; `text` is the UTF-8 decoding of the content; it raises iff the content is not UTF-8 |
| ResponseAdapter.Suffix | jss/response_adapter.py:48 | what follows the last `|` has no `|` and ends the response |
| ResponseAdapter.StatusFollowsSuffix | jss/response_adapter.py:49-52 | the status code is `int` of the suffix, and 0 where `int` raises ValueError |
| ResponseAdapter.NoBarWholeIsStatus | jss/response_adapter.py:48-53 | without a `|` the content is empty and the whole response is read as the status |
| ResponseAdapter.WriteOut | jss/curl_adapter.py:164 | the write-out part of curl's output is `|` and the decimal status, with no other `|` |
| ResponseAdapter.CurlOutputRoundTrip | jss/response_adapter.py:46-56 | a body followed by curl's write-out parses back to that body as content and text and to that status |
| ResponseAdapter.PartitionBeforeWriteOut | jss/response_adapter.py:48 | the last `|` of the output is the one that starts the write-out, whatever the body holds |
| ResponseAdapter.FromRequests | jss/response_adapter.py:37-40 | a requests response keeps its status code and text |
| Xml.ChildIndexFirst | jss/jssobject.py:362 | a one-step `find` gives the first child with the tag, and nothing exactly when no child has it |
| Xml.FindIsFirst | jss/jssobject.py:379 | `find` is the first element of `findall`, and finds nothing exactly when `findall` is empty |
| Xml.FindAllTags | jss/jssobject.py:323-324 | every element `findall` selects carries the path's last tag |
| Xml.AlongInFindAll | jss/jssobject.py:323-324 | every element at the end of the path is selected by `findall` |
| Xml.FindChild | jss/jssobject.py:362 | a one-step `find` selects the first child with the tag |
| Xml.FindTextChild | jss/jssobject.py:352-362 | a one-step `findtext` is None without a match and otherwise the first match's text, "" when it has none |
| Xml.AppendedChildIndex | jss/jssobject.py:149 | appending a child moves no earlier child: a tag already present is still found where it was |
| Xml.FindTextAppended | jss/jssobject.py:149 | `findtext` of another tag is not changed by appending a child |
| Xml.AtUpdate | jss/jssobject.py:379 | an in-place edit of a found element leaves that element equal to the new value |
| Xml.UpdateElsewhere | jss/jssobject.py:379 | an in-place edit changes nothing off its own branch |
| Xml.UpdateSkeleton | jss/jssobject.py:379 | replacing an element by one of the same shape keeps the tree's shape |
| Xml.FindAddrSkeleton | jss/jssobject.py:379 | `find` sees only tags and the tree's shape |
| Xml.FindAddrUpdate | jss/jssobject.py:379 | an edit off a path's way changes nothing `find` selects for it |
| Xml.Cleared | jss/jssobject.py:345 | `clear()` keeps the tag and drops text, tail and children |
| Xml.Appended | jss/jssobject.py:149 | `append` adds the child last and changes nothing else |
| Xml.Removed | jss/jssobject.py:448 | `remove` takes out exactly the child at its index and changes nothing else |
| Xml.WithText | jss/jssobject.py:181 | setting `text` changes nothing else |
| Xml.SubElement | jss/jssobject.py:183 | `SubElement` appends an empty child with the tag |
| Xml.Indent | jss_helper.py:33-57 | the recursive, in-place `indent` leaves the tree `Indented` describes |
| Xml.IndentText | jss_helper.py:35-44 | an element with children and blank text gets a newline and one more pad; other text is kept |
| Xml.IndentTail | jss_helper.py:35-57 | a blank tail below the root becomes a newline and the pads of the level it returns to; a non-blank tail is kept |
| Xml.IndentChildlessRoot | jss_helper.py:34-57 | a root without children is left as it is |
| Xml.IndentChildren | jss_helper.py:45-48 | child j is indented one level deeper and told whether a sibling follows |
| Xml.IndentKeepsSkeleton | jss_helper.py:33-57 | indentation changes only text and tails: tags and the tree's shape stay |
| Xml.IndentIdempotent | jss_helper.py:33-57 | indenting an indented tree changes nothing |
| JssObject.AsInt | jss/jssobject.py:251-254 | `int(data)` is the number for an int, the parsed value for a decimal string, and raises for None and elements |
| JssObject.GetUrl | jss/jssobject.py:237-271 | every GET url starts with the class url; None gives the class url; an element or other value raises; a flat class accepts only None and then gives its url |
| JssObject.NumericStringIsId | jss/jssobject.py:251-256 | a decimal string is an id exactly as the number is, and an id gives url + id_url + id |
| JssObject.SearchByKey | jss/jssobject.py:260-266 | "key=value" searches by that key's search type, and raises JSSUnsupportedSearchMethodError for a key the class cannot search by |
| JssObject.TwoEqualsRaise | jss/jssobject.py:261 | more than one "=" makes the two-way unpacking raise ValueError |
| JssObject.SearchByDefault | jss/jssobject.py:267-269 | any other string is searched for with the default search type, and raises KeyError when the class has none |
| JssObject.GetPostUrl | jss/jssobject.py:273-276 | the post url is the GET url of id 0 |
| JssObject.Or | jss/jssobject.py:352 | Python's `a or b` on two strings: `a` when it is non-empty, else `b` |
| JssObject.UrlOf | jss/jssobject.py:278-288 | an object has a url iff it has an id (flat objects always, their class url) |
| JssObject.UrlIsIdUrl | jss/jssobject.py:278-288 | the url of an object with id n is the GET url of n |
| JssObject.AsListData | jss/jssobject.py:497-511 | the list entry has the list type as tag and exactly an id and a name child, holding the object's id and name |
| JssObject.BoolText | jss/jssobject.py:217-218 | a boolean is written "true" or "false", "true" exactly for True |
| JssObject.Converted | jss/jssobject.py:214-224 | a keyword argument is written as: bools lower-case, None as "", ints in decimal (parsing back to the int), objects by their name, strings as they are |
| JssObject.TextFor | jss/jssobject.py:215-226 | the converted keyword argument when given, else the key's default |
| JssObject.Slot | jss/jssobject.py:205-207 | the key's child is an existing child or the one appended |
| JssObject.SetKey | jss/jssobject.py:188-226 | `_set_xml_from_keys` reuses the first child with the key or appends one, and a plain key's text is the converted argument or the default |
| JssObject.SetItems | jss/jssobject.py:209-212 | setting a dict's items changes only the children of the target |
| JssObject.SetKeyElsewhere | jss/jssobject.py:205-226 | every other child is left as it was |
| JssObject.SetKeyFinds | jss/jssobject.py:205-207 | afterwards the key's child is the first with that tag, and every tag found before is still found |
| JssObject.SetItemsFinds | jss/jssobject.py:209-212 | a dict leaves a child for every item's key and keeps every tag that was there |
| JssObject.SetKeyDict | jss/jssobject.py:209-212 | a dict value leaves its key's child with a child for every item |
| JssObject.SetKeyKeeps | jss/jssobject.py:205-226 | a child with another tag keeps its place |
| JssObject.SetKeyTwice | jss/jssobject.py:205-207 | setting the same key twice changes nothing the second time |
| JssObject.NameSteps | jss/jssobject.py:175-183 | the name goes at `_name_path`'s steps, or at "name" |
| JssObject.NameTree | jss/jssobject.py:175-181 | the chain of elements along the name steps starts with the first |
| JssObject.Created | jss/jssobject.py:142-145 | a new object is tagged with the class's list type |
| JssObject.NewObjectHasKeys | jss/jssobject.py:155-186 | a new object has a child for its name step and for every data key |
| JssObject.KeysKeep | jss/jssobject.py:185-186 | data keys that do not name a child leave that child where it was |
| JssObject.NewObjectNamed | jss/jssobject.py:182-186 | without a name path the new object's `name` is the given name |
| JssObject.NewPackageFilename | jss/jssobjects.py:605-609 | a new Package's `filename` holds its name |
| JssObject.Initial | jss/jssobject.py:142-153 | a string makes a new object (JSSPostError for a flat class); an element is adopted; anything else raises TypeError |
| JssObject.Adopted | jss/jssobject.py:146-149 | an adopted element keeps its tag and children, not its text or tail |
| JssObject.OutcomeOf | jss/jssobject.py:364-384 | an edit is done iff it did not raise, and raises its own error |
| JssObject.BoolOf | jss/jssobject.py:399-402 | a string is True iff its upper case is "TRUE"; a bool is itself; anything else raises |
| JssObject.SetBoolAt | jss/jssobject.py:386-406 | a location that is not found raises "Invalid path!"; a found one succeeds iff the value is a bool or a string |
| JssObject.SetBoolWrites | jss/jssobject.py:398-406 | afterwards the location reads "true" or "false" as the value says, and nothing off its branch changed |
| JssObject.ClearAt | jss/jssobject.py:453-464 | raises iff the location is not found; otherwise the element there is left without children |
| JssObject.MatchFlags | jss/jssobject.py:439-445 | which list entries match the target |
| JssObject.Hits | jss/jssobject.py:440-445 | the indices of the matching entries, in range |
| JssObject.RemoveAt | jss/jssobject.py:429-451 | an unknown location raises "Invalid path!"; a target that is neither an object, an int nor a string raises NameError |
| JssObject.HitsNone | jss/jssobject.py:440-445 | no match gives no indices |
| JssObject.HitsOnly | jss/jssobject.py:440-445 | one match gives its index alone |
| JssObject.HitsSome | jss/jssobject.py:440-445 | a match gives at least one index |
| JssObject.HitsTwo | jss/jssobject.py:440-445 | two matches give at least two indices |
| JssObject.RemovedNoneMatch | jss/jssobject.py:447-448 | after removing the only match no entry matches |
| JssObject.RemoveExactlyOne | jss/jssobject.py:447-448 | with exactly one matching entry, that entry and nothing else goes |
| JssObject.RemoveNothing | jss/jssobject.py:447-451 | with no matching entry the tree is left as it was |
| JssObject.RemoveAmbiguous | jss/jssobject.py:449-451 | two matching entries raise ValueError |
| JssObject.IdFrom | jss/jssobject.py:425-426 | the first child whose id text equals the id, or None when there is none |
| JssObject.AddToPath | jss/jssobject.py:408-427 | an unknown location raises and changes nothing; otherwise the entry is appended there and the result is an element with the object's id, or IndexError |
| JssObject.AddWithIdFinds | jss/jssobject.py:424-426 | an entry whose id text is the object's id is always found again |
| JssObject.AddWithoutId | jss/jssobject.py:424-426 | an object without an id raises IndexError iff every entry there has an id text |
| JssObject.FixText | jss/jssobject.py:326-327 | the placeholder category becomes "", other text stays |
| JssObject.FixName | jss/jssobject.py:324-327 | only the text of a `category/name` changes |
| JssObject.FixCategory | jss/jssobject.py:323-327 | only the texts of a `category` and its `name` children change |
| JssObject.Uncategorised | jss/jssobject.py:323-327 | the tree `save` sends keeps the root and the number of children |
| JssObject.NoPlaceholderLeft | jss/jssobject.py:319-327 | before a PUT no category or category name reads "No category assigned", the tree keeps its shape, and other texts are kept |
| JssObject.SaveRoute | jss/jssobject.py:318-342 | PUT of the placeholder-free tree to the url iff the class can put and (cannot list or has an id); else POST to the post url iff it can post; else JSSMethodNotAllowedError |
| JssObject.SaveRoutes | jss/jssobject.py:318-342 | a class that can neither put nor post cannot be saved; one that can put and has an id puts, to a url |
| JssObject.DeleteRequest | jss/jssobject.py:299-303 | JSSMethodNotAllowedError iff the class cannot delete; otherwise the request goes to the url |
| JssObject.IsSmart | jss/jssobject.py:533-539 | a group is smart iff it has an `is_smart` element whose text is exactly "true" |
| JssObject.SmartSet | jss/jssobject.py:541-553 | the `is_smart` setter raises iff `set_bool` does |
| JssObject.SmartSetEffect | jss/jssobject.py:541-553 | afterwards the group is smart iff the value said true; True adds a `criteria` child when there is none; a string only sets the text |
| JssObject.AddDeviceTo | jss/jssobject.py:555-569 | only a group whose is_smart text is "false" takes a device, as `add_object_to_path`; others raise ValueError and stay unchanged |
| JssObject.HasMember | jss/jssobject.py:571-586 | only computers and mobile devices are looked up (ValueError otherwise); true iff an entry of the group's list has the device's id |
| JssObject.AddedComputerIsMember | jss/jssobject.py:555-586 | a computer added to a static group is a member of it afterwards |
| JssObject.JSSObject.FromElement | jss/jssobject.py:146-149 | an object made from an element holds the adopted element |
| JssObject.JSSObject.FromName | jss/jssobject.py:143-145 | an object made from a name holds the created tree |
| JssObject.JSSObject.Create | jss/jssobject.py:132-153 | the constructor succeeds iff `Initial` does, with its error, and the new object holds `Initial`'s element |
| JssObject.JSSObject.SetBool | jss/jssobject.py:386-406 | `set_bool` leaves the tree `SetBoolAt` gives, or the old one when it raises |
| JssObject.JSSObject.RemoveObjectFromList | jss/jssobject.py:429-451 | `remove_object_from_list` leaves the tree `RemoveAt` gives, or the old one |
| JssObject.JSSObject.ClearList | jss/jssobject.py:453-464 | `clear_list` leaves the tree `ClearAt` gives, or the old one |
| JssObject.JSSObject.AddObjectToPath | jss/jssobject.py:408-427 | `add_object_to_path` appends the other object's list entry as `AddToPath` says |
| JssObject.JSSObject.SetIsSmart | jss/jssobject.py:541-553 | the `is_smart` setter leaves the tree `SmartSet` gives, or the old one |
| JssObject.JSSObject.AddDevice | jss/jssobject.py:555-569 | `add_device` acts as `AddDeviceTo` |
| JssObject.JSSObject.Uncategorise | jss/jssobject.py:323-327 | the placeholder rewrite, one child at a time, leaves `Uncategorised` |
| JssObject.JSSObject.Save | jss/jssobject.py:305-347 | `save` makes the request `SaveRoute` gives; without one nothing changes; a failed request raises after the rewrite; otherwise the object holds the reply's children |
| JssObjects.ComputerBySerialNumber | jss/jssobjects.py:100-105 | a computer is searched for by serial number under "/computers/serialnumber/" |
| JssObjects.PackageFilename | jss/jssobjects.py:592-609 | a new Package's `filename` is its name |
| JssObjects.MacAddresses | jss/jssobjects.py:107-116 | `mac_addresses` is None unless there is an alternate address, and then it is the primary and the alternate address |
| JssObjects.BluetoothMac | jss/jssobjects.py:491-495 | the Bluetooth address when it is non-empty, else the MAC address |
| JssObjects.LdapSearchUrl | jss/jssobjects.py:365-399 | `search_users`/`search_groups` ask url/user/term or url/group/term, with "None" for an object without a url |
| JssObjects.UserInGroupUrl | jss/jssobjects.py:414-415 | the membership url starts with the server's url |
| JssObjects.UserInGroup | jss/jssobjects.py:416-429 | three or more children raise "Unexpected response."; true iff there are two children, the username is the user and is_member is "Yes" |
| JssObjects.MemberNeedsTwoChildren | jss/jssobjects.py:418-429 | only a two-child response can make a user a member |
| JssObjects.UploadUrl | jss/jssobjects.py:309-314 | the upload url is the JSS url, "fileuploads", the resource type, the id type and the id, joined by "/" |
| JssObjects.NewUpload | jss/jssobjects.py:281-307 | a FileUpload is built iff both the resource type and the id type are allowed and the resource is a file; the resource type is checked first, then the id type, then `open(resource, "rb")` raises IOError; it keeps `str(_id)`, the file's basename and the upload url |
| JssObjects.UploadSaved | jss/jssobjects.py:330-335 | a status of 400 or more raises JSSPostError with that status; anything below does not |
| JssObjects.ScopeLocation | jss/jssobjects.py:742-751 | computers, computer groups, buildings and departments have a scope list, and nothing else |
| JssObjects.ExclusionsMirrorScope | jss/jssobjects.py:742-789 | each exclusion list is its scope list under "scope/exclusions/" |
| JssObjects.AddObjectToScope | jss/jssobjects.py:729-789 | `add_object_to_scope`/`add_object_to_exclusions` raise TypeError for other kinds and leave the policy alone; otherwise they add the list entry as `AddToPath` says |
| JssObjects.ScopedObjectFound | jss/jssobjects.py:729-751 | an object with an id that is put in scope is found there by that id |
| JssObjects.ClearPaths | jss/jssobjects.py:762-763 | clearing stops at the first path not found, with "Invalid path!" |
| JssObjects.StaysCleared | jss/jssobjects.py:762-763 | a cleared list stays found and empty while lists that do not lead to it are cleared |
| JssObjects.ClearPathsEmpties | jss/jssobjects.py:753-763 | after a `clear_scope` that did not raise, every one of its lists is found and empty |
| JssObjects.ClearStopsAtMissing | jss/jssobjects.py:762-763 | a list that is missing from the start makes `clear_scope` raise |
| JssObjects.SeparatedPrefixFree | jss/jssobjects.py:755-761 | paths that part after their first step and differ lead to no one another |
| JssObjects.ScopeSectionsPrefixFree | jss/jssobjects.py:755-761 | none of the fifteen scope lists lies on the way to another |
| JssObjects.ClearScope | jss/jssobjects.py:753-763 | `clear_scope` leaves the tree and outcome `ClearPaths` gives for the fifteen lists |
| JssObjects.ClearLists | jss/jssobjects.py:762-763 | the loop clears each path in turn, as `ClearPaths` says |
| JssObjects.SetSelfService | jss/jssobjects.py:803-805 | `set_self_service` is `set_bool` on self_service/use_for_self_service |
| JssObjects.SetRecon | jss/jssobjects.py:807-809 | `set_recon` is `set_bool` on maintenance/recon |
| JssObjects.AddComputer | jss/jssobjects.py:173-179 | `add_computer` is `add_device` into "computers" |
| JssObjects.AddMobileDevice | jss/jssobjects.py:536-542 | `add_mobile_device` is `add_device` into "mobile_devices" |
| JssObjects.RemoveComputer | jss/jssobjects.py:181-188 | `remove_computer` is `remove_object_from_list` on "computers" |
| JssObjects.RemoveMobileDevice | jss/jssobjects.py:544-551 | `remove_mobile_device` is `remove_object_from_list` on "mobile_devices" |
| JssObjects.PackageAdded | jss/jssobjects.py:797-801 | a package entry added to the policy gets an `action` child "Install" last, and keeps the package's id; a failed add raises as it did |
| JssObjects.AddPackage | jss/jssobjects.py:791-801 | only a Package is added; anything else leaves the policy as it was |
| JssObjects.PolicyCategory | jss/jssobjects.py:817-825 | `general/category` gets a `name` child, and an `id` child only for a Category object; the name holds the object's name, the string, or nothing |
| JssObjects.PolicyCategorySet | jss/jssobjects.py:811-825 | it raises iff `general/category` is missing; otherwise only that element changes |
| JssObjects.SetTextAt | jss/jssobjects.py:618 | `find(path).text = t` raises iff nothing is found, and otherwise the path reads t and the tree keeps its shape |
| JssObjects.PackageCategorySet | jss/jssobjects.py:620-633 | the package's `category` reads the given name or the Category's name; it raises iff there is no `category` |
| JssObjects.OsRequirementsSet | jss/jssobjects.py:611-618 | `os_requirements` reads the requirements; it raises iff there is none |
| JssObjects.NewPackageSetters | jss/jssobjects.py:571-633 | a new Package has both elements the setters write to |
| JssObjects.SetPolicyCategory | jss/jssobjects.py:811-825 | the method leaves what `PolicyCategorySet` gives |
| JssObjects.SetPackageCategory | jss/jssobjects.py:620-633 | the method leaves what `PackageCategorySet` gives |
| JssObjects.SetOsRequirements | jss/jssobjects.py:611-618 | the method leaves what `OsRequirementsSet` gives |
| JamfSoftwareServer.Session.constructor | jss/jamf_software_server.py:119 | an adapter holds the credentials and the verify flag it is given |
| JamfSoftwareServer.BaseUrl | jss/jamf_software_server.py:142-146 | `url.rstrip("/")`: a prefix of the url that does not end in "/", with only slashes removed |
| JamfSoftwareServer.BaseUrlIdempotent | jss/jamf_software_server.py:142-146 | setting the base url twice changes nothing more |
| JamfSoftwareServer.ApiUrl | jss/jamf_software_server.py:132-135 | `_url` is the base url followed by "/JSSResource" |
| JamfSoftwareServer.ApiUrlOneSlash | jss/jamf_software_server.py:132-146 | however many slashes the configured url ends with, the API url has exactly one before "JSSResource" |
| JamfSoftwareServer.WithUser | jss/jamf_software_server.py:153-162 | the `user` setter sets the user and keeps the password, or "" when there are no credentials |
| JamfSoftwareServer.WithPassword | jss/jamf_software_server.py:169-178 | the `password` setter sets the password and keeps the user, or "" |
| JamfSoftwareServer.UserThenPassword | jss/jamf_software_server.py:120-121 | setting the user and then the password gives exactly those credentials |
| JamfSoftwareServer.AuthPart | jss/jamf_software_server.py:148-167 | the `user` and `password` getters raise iff there are no credentials, and otherwise give the first or second part |
| JamfSoftwareServer.JSS.constructor | jss/jamf_software_server.py:117-125 | a new JSS has the trimmed base url, a fresh adapter holding (user, password) and `ssl_verify`, the repository preferences or `[]` when none are given, and the flags it was given |
| JamfSoftwareServer.JSS.SetBaseUrl | jss/jamf_software_server.py:142-146 | the `base_url` setter changes only the base url |
| JamfSoftwareServer.JSS.SetUser | jss/jamf_software_server.py:153-162 | the `user` setter changes only the adapter's credentials, as `WithUser` says |
| JamfSoftwareServer.JSS.SetPassword | jss/jamf_software_server.py:169-178 | the `password` setter changes only the adapter's credentials, as `WithPassword` says |
| JamfSoftwareServer.JSS.MountNetworkAdapter | jss/jamf_software_server.py:194-209 | the new adapter gets the old credentials and verify flag; when the old adapter has no credentials reading them raises and nothing changes |
| JamfSoftwareServer.Checked | jss/jamf_software_server.py:237-238 | a status of 400 or more raises the verb's error carrying that status, and only then |
| JamfSoftwareServer.RequestUrl | jss/jamf_software_server.py:232 | the request goes to the API url followed by the path |
| JamfSoftwareServer.GetReply | jss/jamf_software_server.py:211-246 | `get` raises JSSGetError for 400 and above, and otherwise returns the parsed XML, raising when it does not parse |
| JamfSoftwareServer.DigitRun | jss/jamf_software_server.py:292 | the run of digits at a position is as long as it can be |
| JamfSoftwareServer.FirstIdFrom | jss/jamf_software_server.py:292 | a position found holds a match of `<id>([0-9]+)</id>` |
| JamfSoftwareServer.FirstIdLeftmost | jss/jamf_software_server.py:292 | `re.search` finds the leftmost match, and nothing when there is none |
| JamfSoftwareServer.PostedId | jss/jamf_software_server.py:292 | reading the id fails iff no match exists |
| JamfSoftwareServer.PostReply | jss/jamf_software_server.py:283-292 | `post` raises JSSPostError for 400 and above, and otherwise reads the id from the reply text |
| JamfSoftwareServer.DigitRunOf | jss/jamf_software_server.py:292 | a digit run followed by a non-digit has its own length |
| JamfSoftwareServer.IdMatchOf | jss/jamf_software_server.py:292 | "<id>", digits and "</id>" at a position are a match |
| JamfSoftwareServer.NoMatchIn | jss/jamf_software_server.py:292 | no match starts inside a prefix without '<' |
| JamfSoftwareServer.FirstIdIs | jss/jamf_software_server.py:292 | the first match is at p when there is one at p and none before |
| JamfSoftwareServer.PostedIdAt | jss/jamf_software_server.py:292 | the id read is the value of the first match's digits |
| JamfSoftwareServer.Piece | jss/jamf_software_server.py:292 | a piece of a concatenation is where its length says |
| JamfSoftwareServer.PostedIdRoundTrip | jss/jamf_software_server.py:248-294 | a reply holding `<id>n</id>`, with no '<' before it, gives back n |
| JamfSoftwareServer.Subset | jss/jamf_software_server.py:592-597 | a subset that is not a list or a string and is true raises TypeError; a list is kept; a string is split on "&" and joins back to itself; a false subset gives none |
| JamfSoftwareServer.ListLookup | jss/jamf_software_server.py:608-640 | `get_list` GETs a list when the class can get and list, one object at the class url when it can only get, and raises JSSMethodNotAllowedError otherwise |
| JamfSoftwareServer.BasicSubsetOnly | jss/jamf_software_server.py:620-624 | only a Computer listing with the single subset "basic" (any case) asks /subset/basic |
| JamfSoftwareServer.WithGeneral | jss/jamf_software_server.py:673-674 | "general" is added at the end when missing, and the subset is otherwise kept |
| JamfSoftwareServer.IndividualLookup | jss/jamf_software_server.py:642-688 | `get_individual_object` raises when the class cannot get or `get_url` raises, and otherwise asks the url with "/subset/" and the subset (with general) joined by "&" |
| JamfSoftwareServer.GetObject | jss/jamf_software_server.py:554-606 | `get_object` checks the subset first, then lists for None, looks up a string or number, adopts an element, and raises ValueError for anything else |
| JamfSoftwareServer.Kept | jss/jamf_software_server.py:715-717 | at most the children there were |
| JamfSoftwareServer.KeptMembers | jss/jamf_software_server.py:715-717 | every kept child is a child and is not "size" |
| JamfSoftwareServer.KeptAppend | jss/jamf_software_server.py:715-717 | keeping distributes over concatenation, so the kept children stay in order |
| JamfSoftwareServer.KeptAll | jss/jamf_software_server.py:715-717 | every child that is not "size" is kept |
| JamfSoftwareServer.ObjectList | jss/jamf_software_server.py:713-722 | one entry per kept child, holding that child's name and id text |
| JamfSoftwareServer.Received | jss/jamf_software_server.py:626-686 | a new element is returned as it is; an individual reply with "size" becomes a list and otherwise an object; a list reply is read below the class's container, raising when it is missing |
| JssLegacy.LegacyJSS.constructor | jss/jss.py:227-235 | the older JSS keeps the trimmed base url, the user and password, the repository preferences or `[]`, the flags it was given, and a fresh session holding (user, password) and `ssl_verify` |
| JssLegacy.LegacyJSS.SetBaseUrl | jss/jss.py:271-275 | the `base_url` setter changes only the base url |
| JssLegacy.LegacyJSS.SetSslVerify | jss/jss.py:282-289 | the `ssl_verify` setter writes through to the session and changes nothing else there |
| JssLegacy.ErrorMessage | jss/jss.py:255-257 | the message starts "Response Code: " followed by the status |
| JssLegacy.ErrorMessageStatus | jss/jss.py:255-258 | the status can be read back from the message |
| JssLegacy.HandledError | jss/jss.py:251-259 | `_error_handler` raises exactly the verb's exception class, with the status and that message |
| JssLegacy.LegacyChecked | jss/jss.py:315-318 | a status of 400 or more raises through `_error_handler`, and only then |
| JssLegacy.LegacyGetUrl | jss/jss.py:312 | `get` asks the API url followed by the path UTF-8 encoded and quoted: the quoted part decodes back to the path's bytes |
| JssLegacy.LegacyGetReply | jss/jss.py:291-327 | `get` raises for 400 and above, raises "Error Parsing XML" when the text does not parse, and otherwise returns the parsed XML |
| JssLegacy.LegacyPostReply | jss/jss.py:364-376 | `post` raises for 400 and above and otherwise reads the new id from the reply |
| JssLegacy.LegacyGetObject | jss/jss.py:786-886 | the older `get_object` POSTs an element to the post url only when the class can post, and raises ValueError for anything but None, str, int or an element (a bool included) |
| JssLegacy.Lift | jss/jss.py:786-876 | a lookup or its error, unchanged, as a request |
| JssLegacy.FactoriesAgree | jss/jss.py:786-876 | for None, strings and numbers both factories make the same lookup; a bool is looked up by the newer one and refused by the older |
| JssLegacy.LegacyObjectList | jss/jss.py:888-897 | one tag-to-text entry per kept child, in order |
| JssLegacy.LegacyListingIds | jss/jss.py:888-912 | a listing with a "size" child and entries carrying ids gives entries whose `id` is those numbers, in order |
| JssLegacy.KeptOnly | jss/jss.py:890-892 | children none of which is "size" are all kept |
| JssLegacy.PostThenFetch | jss/jss.py:364-378 | after a successful POST the factory fetches the new object by the id the reply names |
| JssObjectList.TagTexts | jss/jss.py:893-895 | a listing entry's dictionary has exactly the tags of its children as keys |
| JssObjectList.TagTextsLast | jss/jss.py:894 | each tag maps to the text of the last child carrying it |
| JssObjectList.ListId | jss/jssobjectlist.py:32-35 | `id` succeeds exactly when the "id" key is present with decimal text, and a missing key is a KeyError |
| JssObjectList.ListIdOfListing | jss/jssobjectlist.py:32-35 | an entry whose last "id" child holds the decimal text of `n` has id `n` |
| JssObjectList.ListName | jss/jssobjectlist.py:37-40 | `name` is the "name" value, a KeyError when it is missing |
| JssObjectList.IntArg | jss/jssobjectlist.py:109 | `int(id_)` keeps an integer and parses a string, failing exactly when it is not decimal |
| JssObjectList.KeysOf | jss/jssobjectlist.py:95-101 | one key per entry, when every key can be computed |
| JssObjectList.SortedEntries | jss/jssobjectlist.py:95-101 | sorting by the computed keys is a permutation of the entries in key order |
| JssObjectList.SortedIdsAscend | jss/jssobjectlist.py:95-97 | after `sort()` every entry has an id and the ids ascend |
| JssObjectList.RetrieveOne | jss/jssobjectlist.py:42-44 | an entry without a readable id raises that error instead of asking the factory |
| JssObjectList.RetrieveOneById | jss/jssobjectlist.py:42-44 | without a subset an entry is looked up by its class's id url and its id, as one object |
| JssObjectList.SubsetAppendHarmless | jss/jssobjectlist.py:113-131 | the "general" the factory appends to a shared subset list does not change the later lookups |
| JssObjectList.WithId | jss/jssobjectlist.py:109 | only entries of the list whose id is `n` are selected |
| JssObjectList.WithIdAll | jss/jssobjectlist.py:109 | every entry whose id is `n` is selected |
| JssObjectList.Matching | jss/jssobjectlist.py:109 | the comprehension succeeds on a non-empty list exactly when every id and `int(id_)` can be read, and then selects the entries with that id; an empty list never converts `id_` |
| JssObjectList.RetrieveEach | jss/jssobjectlist.py:126-131 | one lookup per entry, in list order |
| JssObjectList.WithIdOnly | jss/jssobjectlist.py:109-111 | an id that only one entry has selects exactly that entry |
| JssObjectList.WithIdNone | jss/jssobjectlist.py:109-111 | an id no entry has selects nothing |
| JssObjectList.JSSObjectList.constructor | jss/jssobjectlist.py:66-80 | the list holds its class and the given entries |
| JssObjectList.JSSObjectList.Sort | jss/jssobjectlist.py:95-101 | `sort()`/`sort_by_name()` raise and leave the list when a key cannot be read, and otherwise reorder it in place into key order, a permutation |
| JssObjectList.JSSObjectList.Retrieve | jss/jssobjectlist.py:103-105 | `retrieve(index)` indexes as Python does, negative from the end, with IndexError outside the list |
| JssObjectList.JSSObjectList.RetrieveById | jss/jssobjectlist.py:107-111 | `retrieve_by_id` returns the object exactly when one entry has the id and its lookup succeeds, and None when not exactly one does |
| JssObjectList.JSSObjectList.RetrieveAll | jss/jssobjectlist.py:113-131 | `retrieve_all` succeeds exactly when every entry's lookup does, giving them in list order |
| JssObjectList.RetrieveTheOnlyMatch | jss/jssobjectlist.py:107-111 | when the ids are distinct, `retrieve_by_id` fetches the entry with that id |
| Sorting.StrLeTotal | jss/queryset.py:121-123 | Python 2 string order is total |
| Sorting.StrLeTrans | jss/queryset.py:121-123 | Python 2 string order is transitive |
| Sorting.StrLeAntisymmetric | jss/queryset.py:121-123 | Python 2 string order is antisymmetric |
| Sorting.KeyLeTotal | jss/jssobjectlist.py:95-101 | sort keys (None, numbers, strings) are totally ordered and antisymmetric |
| Sorting.KeyLeTrans | jss/jssobjectlist.py:95-101 | the order of sort keys is transitive |
| Sorting.SortByPermutes | jss/queryset.py:116-123 | `list.sort` keeps the same elements, each as often |
| Sorting.SortBySorted | jss/queryset.py:116-123 | `list.sort` puts the elements in key order |
| Sorting.SortByStable | jss/queryset.py:116-123 | `list.sort` is stable: elements sharing a key keep their order |
| Sorting.Zip | jss/queryset.py:116-123 | each element is paired with its own key |
| Sorting.Values | jss/queryset.py:116-123 | the keys are dropped, the elements kept in place |
| Sorting.SortedByKeyOf | jss/queryset.py:116-123 | sorting by keys computed from the elements is a permutation in key order |
| QuerySet.Member.constructor | jss/queryset.py:174-178 | a member holds its class, id, name and cached flag |
| QuerySet.IdKeyOf | jss/queryset.py:119 | the id key exists exactly when the id is decimal text, and is that number |
| QuerySet.NameKeyOf | jss/queryset.py:123 | the name key exists exactly when there is a name, and is it upper-cased |
| QuerySet.MemberKeys | jss/queryset.py:116-123 | one key per member, when every key can be computed |
| QuerySet.SortedMembers | jss/queryset.py:116-123 | sorting by the computed keys is a permutation of the members in key order |
| QuerySet.SortedByUpperName | jss/queryset.py:121-123 | after `sort_by_name()` the upper-cased names are in order |
| QuerySet.Uncached | jss/queryset.py:133-135 | only members of the set that are not cached, no more of them than members |
| QuerySet.UncachedAll | jss/queryset.py:133-135 | every member that is not cached is asked |
| QuerySet.UncachedSnoc | jss/queryset.py:133-135 | the members asked grow by the next member exactly when it is not cached |
| QuerySet.QuerySet.Of | jss/queryset.py:50-61 | the set holds the given members and contained class |
| QuerySet.QuerySet.Sort | jss/queryset.py:116-123 | `sort()`/`sort_by_name()` raise and leave the order when a key cannot be read, and otherwise reorder in place into key order, a permutation, keeping the contained class |
| QuerySet.QuerySet.Invalidate | jss/queryset.py:154-159 | `invalidate()` marks every member uncached and keeps the list |
| QuerySet.QuerySet.RetrieveAll | jss/queryset.py:125-138 | `retrieve_all()` asks exactly the uncached members, in list order |
| QuerySet.QuerySet.Names | jss/queryset.py:161-163 | `names()` gives each member's name in list order |
| QuerySet.QuerySet.Ids | jss/queryset.py:165-167 | `ids()` gives each member's id in list order |
| QuerySet.NewQuerySet | jss/queryset.py:50-61 | members of more than one class raise ValueError; otherwise the set holds them sorted by id, with the first member's class, or None when empty |
| QuerySet.EntryField | jss/queryset.py:174-176 | a listing entry's field is its text when the tag is present, and None when not |
| QuerySet.FromEntryId | jss/queryset.py:174-178 | a member built from an entry is uncached, of the listed class, and has the text of the entry's last `id` child as its id |
| QuerySet.FromEntryNoId | jss/queryset.py:174-178 | an entry without an `id` child gives a member with no id |
| QuerySet.BuildMembers | jss/queryset.py:174-178 | one uncached member per kept entry, in order, with the entry's class, id and name |
| QuerySet.FromResponse | jss/queryset.py:169-180 | `from_response` succeeds iff every listing child other than "size" has a numeric id (the members share one class, so the mixed-class ValueError cannot arise); it then holds one member per such child, each from its own entry, sorted by id, with the listed class or None when empty |
| Uapi.NegativeNeverExpires | jss/uapiobject.py:78-80 | a negative `max_age` keeps a cache forever |
| Uapi.ZeroExpiresAtOnce | jss/uapiobject.py:77-83 | with `max_age` 0 a retrieval time expires as soon as any time has passed |
| Uapi.ExpiryLasts | jss/uapiobject.py:80-84 | once expired, a cache stays expired at every later time |
| Uapi.FreshWithinMaxAge | jss/uapiobject.py:80-84 | a retrieval time is good for exactly `max_age` seconds |
| Uapi.OnlyTimestampsExpire | jss/uapiobject.py:80 | False and "Unsaved" never expire; only a retrieval time does |
| Uapi.Url | jss/uapiobject.py:92-113 | `build_query()` and `url` are "uapi/" followed by the endpoint path, "None" when unset |
| Uapi.UapiObject.constructor | jss/uapiobject.py:59-72 | the object holds the given dictionary, empty for None, and is not cached |
| Uapi.UapiObject.Cached | jss/uapiobject.py:75-86 | the `cached` getter resets an expired retrieval time to False and otherwise keeps the marker; what it returns is never expired |
| Uapi.UapiObject.Retrieve | jss/uapiobject.py:123-130 | `retrieve()` GETs the url; on success the reply updates the dictionary and the cache time is now, and on failure nothing changes |
| Uapi.UapiObject.Save | jss/uapiobject.py:132-152 | `save()` POSTs the dictionary when the class can post and PUTs it otherwise, then retrieves when the class can get |
| Uapi.NewContainer | jss/uapiobject.py:215-262 | a name gives {"name": name} "Unsaved"; a dictionary is kept, cached now exactly when it has a truthy id; anything else is the TypeError |
| Uapi.SubsetItems | jss/uapiobject.py:281-283 | a subset string is split on "&", a list is kept, and a pair has no `split` |
| Uapi.WithIdSection | jss/uapiobject.py:285-288 | "general" is appended exactly when neither "general" nor "basic" is there, so one of them always is |
| Uapi.Unpack | jss/uapiobject.py:293 | `start, end = val` unpacks a pair, or any two-character string or two-element list |
| Uapi.DateRangeAsWritten | jss/uapiobject.py:292-297 | as written, a start that is a date is formatted from the end date, and a date start with a string end raises on `strftime` |
| Uapi.DateRange | jss/uapiobject.py:292-297 | as intended, the piece is the start, "_" and the end, each written from itself |
| Uapi.DateRangeLosesStart | jss/uapiobject.py:295 | two different dates give a range that starts at the end date |
| Uapi.UrlifyArg | jss/uapiobject.py:278-300 | "subset" gives ["subset", its entries joined by "&" with the id section], "date_range" gives the one range piece, any other key gives [key, value] |
| Uapi.SubsetPieceStable | jss/uapiobject.py:281-290 | the subset piece asks for the id section, and urlifying it again gives the same piece |
| Uapi.TextSubsetNoAmpersand | jss/uapiobject.py:283 | the pieces of a split subset string hold no "&" |
| Uapi.GlueNothing | jss/uapiobject.py:304-309 | no pieces before the rest leave the rest |
| Uapi.GlueTwice | jss/uapiobject.py:307-308 | extending twice is extending once by both |
| Uapi.ProcessKwargs | jss/uapiobject.py:302-309 | `_process_kwargs` gives nothing unless there are arguments and all are allowed, and then every argument's pieces in order |
| Uapi.PiecesAlternate | jss/uapiobject.py:299-308 | without a date range every argument gives two pieces, its key first |
| MiscEndpoints.FlushWithXml | jss/misc_endpoints.py:86-88 | `command_flush_with_xml` and `log_flush_with_xml` DELETE the endpoint with the data, a string passed as it is |
| MiscEndpoints.CommandFlushFor | jss/misc_endpoints.py:90-116 | `command_flush_for` raises ValueError("Invalid arguments.") unless the id type and status are among the allowed ones, and otherwise DELETEs the commandflush path with no body |
| MiscEndpoints.JoinSix | jss/misc_endpoints.py:113-114 | six segments joined by "/" |
| MiscEndpoints.JoinFour | jss/misc_endpoints.py:200-202 | four segments joined by "/" |
| MiscEndpoints.IntTextChars | jss/misc_endpoints.py:111 | `str(i)` holds only a sign and digits, so no "," or "/" |
| MiscEndpoints.CommandTypesNoSlash | jss/misc_endpoints.py:104-106 | the allowed id types and statuses hold no "/" |
| MiscEndpoints.CommandFlushSegments | jss/misc_endpoints.py:107-114 | the flush path splits back on "/" into the endpoint, the id type, "id", the ids, "status" and the status |
| MiscEndpoints.CommandIdsRoundTrip | jss/misc_endpoints.py:110-111 | a list of integer ids, joined with ",", splits back into one text per id that reads back as that id |
| MiscEndpoints.LogType | jss/misc_endpoints.py:315-316 | an empty or missing log type becomes "policies", any other is kept |
| MiscEndpoints.Interval | jss/misc_endpoints.py:320 | every space becomes "+", every other character is kept |
| MiscEndpoints.LogFlushForInterval | jss/misc_endpoints.py:293-325 | `log_flush_for_interval` DELETEs logflush/<type>/interval/<interval> with no body |
| MiscEndpoints.LogFlushForObjForInterval | jss/misc_endpoints.py:327-364 | `log_flush_for_obj_for_interval` DELETEs logflush/<type>/id/<id>/interval/<interval> with no body |
| MiscEndpoints.LogFlushObjInserts | jss/misc_endpoints.py:322-323 | the object variant is the interval variant with "/id/<id>" inserted after the log type |
| MiscEndpoints.UploadUrl | jss/misc_endpoints.py:197-203 | the upload url is the JSS url, "fileuploads", the resource type, the id type and the id, joined by "/" |
| MiscEndpoints.NewFileUpload | jss/misc_endpoints.py:138-195 | a FileUpload is built exactly when both types are allowed and the resource is a file; the resource type is checked first, then the id type, each a TypeError, then `open(resource, "rb")` raises IOError; it keeps `str(_id)`, the file's basename and the upload url |
| MiscEndpoints.UploadTypesNoSlash | jss/misc_endpoints.py:170-175 | the allowed resource and id types hold no "/" |
| MiscEndpoints.UploadUrlSegments | jss/misc_endpoints.py:197-203 | below the JSS url the upload url splits back into the endpoint, the resource type, the id type and the id |
| MiscEndpoints.UploadSaved | jss/misc_endpoints.py:205-221 | `save()` re-raises a 409 JSSPostError, turns a JSSPostError with any other status into JSSMethodNotAllowedError, lets every other exception of the POST propagate unchanged, and raises JSSPostError for a status of 400 or more |
| Upload.Protocol | jss/upload.py:137-165 | only AFP ("afp") and SMB ("smbfs") repositories have a `protocol` |
| Upload.ArgsMap | jss/upload.py:86-90 | the connection has exactly the keyword arguments' names as keys |
| Upload.ArgsMapHolds | jss/upload.py:88-90 | every keyword argument is stored under its name |
| Upload.AfpUrl | jss/upload.py:153-161 | the AFP mount url exists exactly when "URL" is set, starts "afp://" and ends with the URL |
| Upload.SmbUrl | jss/upload.py:182-196 | the SMB mount url exists exactly when "URL" is set, starts "//" and ends with the URL |
| Upload.SmbAuth | jss/upload.py:184-192 | SMB credentials are written exactly when username and password are both truthy, and end in "@" |
| Upload.SchemeAuthHost | jss/upload.py:156-161 | a scheme, credentials and host start with the scheme and end with the host |
| Upload.BuildUrl | jss/upload.py:92-196 | `_build_url` leaves a plain mounted connection, sets "mount_url" for AFP and SMB, and is missing on the other kinds |
| Upload.AfpUrlShape | jss/upload.py:155-161 | the character before the host is "@" exactly when both credentials are truthy |
| Upload.SmbUrlShape | jss/upload.py:184-196 | the character before the host is "@" exactly when both credentials are truthy |
| Upload.SmbUrlDomain | jss/upload.py:185-188 | a domain given with credentials comes first, followed by ";" |
| Upload.DomainFirst | jss/upload.py:186-192 | text put first after "//" is found there |
| Upload.AuthBeforeHost | jss/upload.py:156-193 | the character before the host ends the credentials, or the scheme when there are none |
| Upload.UploadRepository.Of | jss/upload.py:86-92 | the repository holds its kind and its connection |
| Upload.UploadRepository.Mount | jss/upload.py:108-120 | `mount()` creates a missing mount point, then runs `mount -t <protocol> <url> <point>`, raising when the protocol or a key is missing |
| Upload.UploadRepository.Umount | jss/upload.py:122-126 | `umount()` runs `umount <point>` exactly when the mount point exists |
| Upload.UploadRepository.Copy | jss/upload.py:97-99 | every repository's `copy` raises NotImplementedError, no kind overriding it |
| Upload.NewRepository | jss/upload.py:86-92 | the constructor succeeds exactly when `_build_url` does, and keeps the connection it builds |
| Upload.MountCreatesPoint | jss/upload.py:113-120 | with nothing at the mount point, a directory is made there before the mount command runs |
| Upload.UploaderCopyAsWritten | jss/upload.py:43-62 | as written, `copy` without a repo fails on the missing `jss` attribute before copying anything |
| Upload.FileUploader.constructor | jss/upload.py:43-48 | the uploader as intended keeps the repositories it is given |
| Upload.FileUploader.Copy | jss/upload.py:50-62 | `copy` asks only the given repo, or else the repositories in order up to the first that raises |
| Upload.UploaderNeverCopies | jss/upload.py:58-62 | the written uploader asks no repository without a repo, and only the given one with it |
| JssScript.Formatted | jss.py:78 | `"%s" %` of None is "None", of a string the string |
| JssScript.NewJss | jss.py:73-82 | preferences replace the url, user and password; the API url is the url followed by "/JSSResource"; the flags are kept |
| JssScript.PrefsOverride | jss.py:73-76 | with preferences, the explicit url, user and password make no difference |
| JssScript.ApiUrlOf | jss.py:78 | the API url is the given url followed by "/JSSResource", and "None/JSSResource" without one |
| JssScript.KindUrl | jss.py:273-297 | each object type's url starts with "/" and names a plural collection |
| JssScript.KindUrlDistinct | jss.py:273-297 | no two object types share a url |
| JssScript.RawGetUrl | jss.py:100-107 | `raw_get` asks the path below the API url |
| JssScript.GetUrl | jss.py:109-119 | `get` asks the type's url below the API url, followed by "/id/" and the id when one is given |
| JssScript.PostUrl | jss.py:137-140 | `post` sends to the type's url with id 0 |
| JssScript.GetUrlId | jss.py:109-119 | the listing url is a proper prefix of every object url, and the id reads back from after "/id/" |
| JssScript.GetReply | jss.py:84-98 | `get_request` raises the authentication error for 401, "Object <url> does not exist!" for 404, and otherwise returns the parsed XML or fails to parse |
| JssScript.PostReply | jss.py:137-154 | `post` raises for 401 and 409 and otherwise returns the reply text |
| JssScript.OnlyKnownStatusesRaise | jss.py:89-150 | only 401 and 404 make `get_request` raise, and only 401 and 409 make `post` raise |
| JssScript.DeleteReply | jss.py:159-169 | `delete` raises the deletion error exactly for 404 |
| JssScript.ListObjects | jss.py:121-135 | `list` gives objects of the type, each wrapping a child of the listing other than "size" |
| JssScript.ListObjectsAll | jss.py:133-135 | every child but "size" is listed, and appending children keeps what was listed before as a prefix |
| JssScript.CreatedId | jss.py:214 | the id of a created object is the first `<id>` of the reply's digits, failing exactly when there is none |
| JssScript.CreatedIdAt | jss.py:214 | the first match's digits are the id |
| JssScript.CreatedIdRoundTrip | jss.py:214 | a number written in the first `<id>` reads back as its text |
| JssScript.InitPlan | jss.py:204-219 | `JSSObject(jss, data)` fetches the listing for None, fetches by id for an int (a bool as "True"/"False"), POSTs a string and then fetches, and wraps anything else |
| JssScript.CreatedUrl | jss.py:211-217 | after the POST the object is fetched by the type's url and the id the reply names; the POST's errors and a reply without an id raise |
| JssScript.CreateThenFetchById | jss.py:204-217 | creating an object fetches it from the url that constructing one by its id uses |
| JssScript.GeneralText | jss.py:266-270 | `name()` and `id()` read the text of general/<field>, AttributeError when it is missing |
| JssScript.GeneralTextOf | jss.py:266-270 | an object starting with general/<field> gives that field's text |
| JssScript.DeleteUrl | jss.py:159-162 | `delete` targets the type's url and the object's `general/id` text |
| JssScript.DeleteWhereFetched | jss.py:159-162 | deleting a fetched object targets the url it was fetched from |
| JssScript.ListOrObject | jss.py:172-176 | `JSS.<Type>(id_)` lists without an id and constructs one object with it |
| JssScript.ListingOrListObject | jss.py:172-209 | without an id, listing and constructing an object ask the same url |
| JssHelper.PolicyIds | jss_helper.py:80-83 | the ids are the texts of the policy/id elements, one each, in document order |
| JssHelper.AllInNone | jss_helper.py:80-83 | children that do not start the path select nothing |
| JssHelper.EntryId | jss_helper.py:80-83 | a policy entry's id is the one element its `id` path selects |
| JssHelper.EntriesStep | jss_helper.py:80-83 | each entry selects its own id after those before it |
| JssHelper.EntriesCount | jss_helper.py:80-83 | one id per entry |
| JssHelper.EntryIdAt | jss_helper.py:80-83 | the entry at each place gives the id at its own place |
| JssHelper.PolicyIdsOfListing | jss_helper.py:80-83 | a listing of "size" and policy entries gives the entries' ids, in order |
| JssHelper.Naming | jss_helper.py:144-147 | exactly the scope entries whose `name` text is the group |
| JssHelper.Hits | jss_helper.py:144-147 | what is appended for a policy is always its id and name elements |
| JssHelper.HitsCount | jss_helper.py:144-147 | one entry per scope entry naming the group |
| JssHelper.HitsMembers | jss_helper.py:144-147 | a policy appears exactly when one of its scope entries names the group |
| JssHelper.ScopedStep | jss_helper.py:136-148 | one more policy adds its own hits at the end |
| JssHelper.ScopedSound | jss_helper.py:136-148 | every result is the id and name of a policy scoped to the group |
| JssHelper.ScopedComplete | jss_helper.py:136-148 | every policy scoped to the group gives a result |
| JssHelper.PoliciesScopedTo | jss_helper.py:136-148 | `get_policies_scoped_to_computer_group` appends, policy by policy and scope entry by scope entry, the id and name of each policy whose entry names the group |
| Casper.Casper.constructor | jss/casper.py:36-46 | the object is tagged "Casper", its url is the base url followed by "/casper.jxml", and it holds the reply's children |
| Casper.Casper.Update | jss/casper.py:94-102 | `update()` clears text, tail and children, then appends the reply's children in order |
| Casper.Casper.Repr | jss/casper.py:78-84 | `__repr__` indents a copy, leaving the object alone; the copy differs only in whitespace |
| Text.UpperIdempotent | jss/distribution_points.py:907 | upper-casing twice is upper-casing once |
| Text.JoinSplit | jss/jss.py:826 | joining the pieces of `s.split(sep)` with `sep` gives `s` back |
| Text.SplitContains | jss/distribution_points.py:139 | `s.split(sep)` has a second piece exactly when `sep` occurs in `s` |
| Text.SplitJoin | jss/misc_endpoints.py:110-114 | pieces free of a one-character separator, joined and split again, come back unchanged |
| Text.RStripChar | jss/jss.py:275 | `rstrip(c)` keeps a prefix that does not end in `c`, and drops only `c`s |
| Text.StripNoSpace | jss/casper.py:60 | a string that neither starts nor ends with whitespace is its own `strip()` |
| Text.ParseIntToString | jss/jssobjectlist.py:35 | `int(str(i)) == i` |
| Text.ParseIntRejects | jss/jssobjectlist.py:35 | `int(s)` raises when `s` holds a character that is not whitespace, a sign or a digit |
| Text.ReplaceChar | jss/misc_endpoints.py:320 | `replace(a, b)` of one character changes exactly the occurrences of `a` |
| Text.Utf8RoundTrip | jss/jss.py:312 | decoding the UTF-8 encoding of a string gives the string back |
| Text.QuoteBytesRoundTrip | jss/jss.py:312 | percent-decoding a quoted byte string gives the bytes back when "%" is not declared safe |
| Paths.RFind | jss/distribution_points.py:907 | `rfind(c)` is the last index holding `c`, or -1 |
| Paths.Basename | jss/distribution_point.py:114 | `basename` is the '/'-free tail of the path |
| Paths.BasenameOfJoin | jss/distribution_point.py:114 | a component without '/' joined onto a path is its basename |
| Paths.DirnameOfJoin | jss/distribution_point.py:175 | a component without '/' joined onto a path that does not end in '/' has that path as its directory, the folder `open` needs to exist |
| Paths.TrimSlashes | jss/distribution_point.py:175 | `rstrip('/')` keeps a prefix that does not end in '/' and drops only slashes |
| Paths.SplitExt | jss/distribution_points.py:907 | `splitext` splits the path into two parts that concatenate back, the extension empty or a single dot followed by neither '.' nor '/' |

## Left out

- Running anything: `subprocess` calls (mount, umount, diskutil, curl), `shutil` copies and removals, `os.mkdir`, `open()` and every HTTP request. Commands and requests are produced as values and recorded on the host. Of `open()` only the outcome is modelled: reading raises IOError for a path that is not a file (on the host for the distribution-point uploads, as a flag for FileUpload), and `shutil`'s writes raise as under Repos.CopyInto; permissions and special files are not. HTTP replies, curl's exit status and output, and the API's answer to a fetch-and-delete are parameters; mount, umount and diskutil are taken to exit 0 (next lines).
- DistributionPoint.Repository.Mount: the mount command is taken to succeed; a non-zero exit, which `subprocess.check_call` turns into CalledProcessError (jss/distribution_point.py:514, 521, 601, 612), is not modelled.
- DistributionPoint.Repository.Umount: the umount or diskutil command is taken to succeed; `check_call`'s CalledProcessError on a non-zero exit (jss/distribution_point.py:280, 285) is not modelled.
- DistributionPoints.Repository.Mount: the mount command is taken to succeed; `check_call`'s CalledProcessError on a non-zero exit (jss/distribution_points.py:346) is not modelled.
- DistributionPoints.Repository.Umount: the umount or diskutil command is taken to succeed; `check_call`'s CalledProcessError on a non-zero exit (jss/distribution_points.py:361, 366) is not modelled.
- Upload.UploadRepository.Mount: the mount command is taken to succeed; `check_call`'s CalledProcessError on a non-zero exit (jss/upload.py:118) is not modelled.
- Upload.UploadRepository.Umount: the umount command is taken to succeed; `check_call`'s CalledProcessError on a non-zero exit (jss/upload.py:126) is not modelled.
- Repos.CopyInto: the file name is the host path itself; `os.path.abspath(os.path.expanduser(filename))` (jss/distribution_point.py:170, jss/distribution_points.py:535), which expands "~", resolves against the working directory and folds "..", is not modelled. Of `shutil`'s failures the model raises OSError for a tree copied onto an existing path, shutil.Error for a file copied onto its own path, and IOError for a file copied onto a directory or into a missing folder; a path component that is a file, links (`samefile` on two names of one file), special files, permissions and a full disk are not modelled, and the folders `copytree`'s `makedirs` creates on the way are not recorded.
- Python 2's `str`/`unicode` and `int`/`long` splits are not modelled; every text is a Unicode string and every integer one kind. The members that this affects follow.
- Mounting.AfpMountUrl: the port is text; an integer port, for which `":" + port` raises TypeError (jss/distribution_point.py:491-492), is not modelled. The password is quoted from its UTF-8 bytes, as `_encode_password` does (jss/distribution_points.py:585); the UnicodeDecodeError that `unicode()` raises there for a non-ASCII byte string, and the KeyError of `urllib.quote` on a non-ASCII unicode password in the older `_encoded_password` (jss/distribution_point.py:444), are not modelled.
- Mounting.SmbMountUrl: the same as Mounting.AfpMountUrl, with the port at jss/distribution_point.py:576-577.
- JssObject.GetUrl: a numeric string is an id whatever its size; for digits beyond `sys.maxint` `int()` gives a `long`, which `isinstance(data, int)` rejects, so the library raises ValueError (jss/jssobject.py:251-271).
- JssObject.NumericStringIsId: states the id case for every numeric string; the library's exception for a `long`, given under JssObject.GetUrl, is not modelled.
- JamfSoftwareServer.GetObject: an integer of any size is fetched as an individual object; the library raises ValueError for a `long` (jss/jamf_software_server.py:601).
- JssObject.JSSObject.SetBool: the location is a path string only; `_handle_location` (jss/jssobject.py:364-384) also takes an Element and uses it as found, which is not modelled.
- JssObject.JSSObject.RemoveObjectFromList: the list location is a path string only; an Element location, which `_handle_location` uses as given, is not modelled.
- JssObject.JSSObject.ClearList: the list location is a path string only; an Element location is not modelled.
- JssObject.JSSObject.AddObjectToPath: the location is a path string only; an Element location is not modelled.
- Name resolution (`socket.gethostbyname`, `socket.getfqdn`): the resolved address and name, and the set of names that do not resolve, are parameters.
- The regular expression that parses `mount` output: the mount table is given as parsed (source, mount point, file system type) records.
- The operating system: `os.uname` is replaced by an OS parameter. `jss/tools.py` defines only `is_osx` and `is_linux`.
- `is_package`, `quote_and_encode` and `error_handler`, imported from `jss/tools.py`, are not part of this model. `is_package` is the one in `jss/distribution_points.py:905-907`; `error_handler` raises the verb's error with the reply's status.
- JamfSoftwareServer.RequestUrl: takes the path as already quoted, because `quote_and_encode` is not part of this model.
- `Identity`, imported from `jss/jssobject.py` by `jss/jamf_software_server.py:719`, is not part of this model. It is taken to be the pair of name and id texts (`JamfSoftwareServer.Identity`).
- XML text: parsing (`ElementTree.fromstring`), serialisation (`tostring`), attributes, `from_file`/`from_string`, and the `makeelement` overrides. Trees are values, so in-place aliasing between elements and `copy.deepcopy` are not modelled; the pretty-printer returns an indented copy instead of editing the tree it is given.
- Dictionary iteration order in Python 2: keyword arguments and `data` dictionaries are sequences of pairs, in the order given.
- Printing, `pprint` and the `__repr__` methods (verbose output, "Success." in `jss.py`); `Casper.__repr__` is modelled for its effect on the tree only.
- `SearchCriteria` and `JSSGroupObject.add_criterion`; the `udid` and `serial_number` properties, which are `findtext` of `general/udid` and `general/serial_number` (`Xml.FindText`); `get_object_url`, which returns the `url` property (`JssObject.UrlOf`).
- `pickle_all`, `write_all` and `load_from_xml` in `jss/jamf_software_server.py`, and the JSS's `__repr__`.
- Token refresh in `jss/auth.py`; the adapters `jss/nsurlsession_adapter.py`, `jss/gurl_adapter.py`, `jss/requests_adapter.py`, `jss/tlsadapter.py` and `jss/contrib/mount_shares_better.py`; the PyObjC `mount_share` route of `jss/distribution_point.py`.
- JamfSoftwareServer.JSS.constructor: the `factory` and `distribution_points` attributes are not built (jss/jamf_software_server.py:127-128). `DistributionPoints(self)` is modelled by `DistributionPoints.DistributionPoints.Create`, which takes the JSS, its `repo_prefs` and the distribution-point records as arguments, so its errors (the records fetch, an unknown repository type, a missing share_name) are stated there and not raised by the constructor. The `jss_prefs` form and `ssl_verify`'s `requests` warnings are not modelled.
- JssLegacy.LegacyJSS.constructor: likewise, `factory` and `distribution_points` (jss/jss.py:248-249) are not built, the distribution points being `DistributionPoints.DistributionPoints.Create`'s; the session's XML headers and its TLSAdapter mount (jss/jss.py:237-246) are not modelled.
- JamfSoftwareServer.JSS.MountNetworkAdapter: keeps the credentials and the verify flag, and does not model the adapter's own settings.
- Preferences: `JSSPrefs`, `jss/jss_prefs.py`, and the plist that `jss_helper.py` reads when it is imported.
- `jss_helper.py`'s fetching: `get_policies`, `get_policy` with its retry-until-success loop and sleeps, `jss_request`, and `get_group_policies`, which prints. The scoped-policy search takes the fetched policies as input.
- `Casper`'s urlencoded credentials and the POST to `casper.jxml`: `update` takes the parsed reply.
- In `jss.py`: `put`, whose body does nothing, and `JSSObject._create`, which uses an attribute `gitlab` that no class defines.
- `JDS.delete_with_casperAdminSave` in `jss/distribution_points.py:773-795`: a network POST, and for a string argument it reads a `filename` that is not defined (line 786).
- `UAPIContainer.url` (`jss/uapiobject.py:274`) reads `self.id`, which is never defined; the container's url is not modelled. The UAPI JSS's own requests are parameters.
- Uapi.UapiObject.Retrieve: requests the flat object's url ("uapi/" and the endpoint). On a container `url` is a plain method (jss/uapiobject.py:264-276), so the library passes the bound method, not a path, to `jss.get`; that request is not modelled.
- Uapi.UapiObject.Save: the same as Uapi.UapiObject.Retrieve for the POST or PUT and the GET after it.
- MiscEndpoints.CommandFlushFor: only a list of ids is joined with ","; a tuple, which the library formats as its Python repr such as "(1, 2)" (jss/misc_endpoints.py:110-114), is not modelled.
- QuerySet.QuerySet.RetrieveAll: reads every member's `cached` flag as it is before the loop. A member listed twice is reported twice, while the library's first `retrieve()` sets the flag and the second visit skips it (jss/queryset.py:133-135).
- `DistributionServer.delete_with_casper_admin_save` in `jss/distribution_point.py:692-714`: a network POST of the credentials and the package id, which for a name is looked up through the JSS; not modelled.
- JssObjects.SetSelfService: the library passes the found element to `set_bool`, through `_handle_location`'s Element branch; the model passes the path, so a missing element gives ValueError("Invalid path!") rather than the library's error on None.
- JssObjects.SetRecon: the same as JssObjects.SetSelfService.
- Upload.FileUploader.constructor: models the uploader as intended, holding the repositories themselves rather than a JSS that lists them; the uploader as written is `Upload.UploaderCopyAsWritten`.
- Uapi.UrlifyArg: uses the corrected `date_range` (`Uapi.DateRange`); the piece as written is `Uapi.DateRangeAsWritten`.
- The declaration-only files `jss/uapiobjects.py`, `jss/misc_uapi_endpoints.py`, `jss/upload_endpoints.py`, `jss/pretty_element.py` and `jss/abstract.py`; `jss/exceptions.py` is the `Errors.Error` datatype. `check_against_docs.py`, `setup.py` and the tests.

## Findings

| source | as written | input that shows it | evidently intended | confidence | as-written member | corrected member |
|---|---|---|---|---|---|---|
| jss/uapiobject.py:292-297 | `date_range` formats the start of the range from `end` (`end.strftime`) when the start is a date | `date_range=(date(2020,1,1), date(2020,2,1))` gives "2020-02-01_2020-02-01" | each end written from itself: "2020-01-01_2020-02-01" | not executed | Uapi.DateRangeAsWritten, Uapi.DateRangeLosesStart | Uapi.DateRange |
| jss/upload.py:43-62 | `FileUploader.__init__` is `pass`: it keeps neither the JSS nor the repositories, so `copy` without a repo reads an attribute `jss` that does not exist | `FileUploader(jss).copy("a.pkg")` raises AttributeError before any repository is asked | the uploader keeps its repositories and `copy` asks each of them in turn | not executed | Upload.UploaderCopyAsWritten, Upload.UploaderNeverCopies | Upload.FileUploader.Copy |
