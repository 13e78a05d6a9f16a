/** The concrete object classes of jss/jssobjects.py: their class
    attributes, the device and LDAP properties, FileUpload, and the edits a
    Policy and a Package make to their own tree. The edits change the
    object's element in place, so they are methods on JSSObject values, each
    proved against a function on the old element. */
module JssObjects {
  import opened Errors
  import opened Text
  import opened Xml
  import opened JssObject
  import Paths

  // ---------------------------------------------------------------------------
  // Class attributes

  /** The search types of Computer and MobileDevice. */
  const DeviceSearches: map<string, string> := map[
    "name" := "/name/", "serial_number" := "/serialnumber/", "udid" := "/udid/",
    "macaddress" := "/macadress/", "match" := "/match/"]

  const ComputerClass: ObjectClass :=
    Container("Computer", Computer, "/computers", "computer").(searchTypes := DeviceSearches)

  const MobileDeviceClass: ObjectClass :=
    Container("MobileDevice", MobileDevice, "/mobiledevices", "mobile_device").(searchTypes := DeviceSearches)

  /** ComputerGroup's `data_keys`; the default `False` of `is_smart` is not
      a string, and is kept here as an element without text. */
  const ComputerGroupClass: ObjectClass :=
    Container("ComputerGroup", ComputerGroup, "/computergroups", "computer_group").(
      dataKeys := [("is_smart", KText(None)), ("criteria", KText(None)), ("computers", KText(None))])

  const MobileDeviceGroupClass: ObjectClass :=
    Container("MobileDeviceGroup", MobileDeviceGroup, "/mobiledevicegroups", "mobile_device_group")

  const BuildingClass: ObjectClass := Container("Building", Building, "/buildings", "building")

  const DepartmentClass: ObjectClass := Container("Department", Department, "/departments", "department")

  const CategoryClass: ObjectClass := Container("Category", Category, "/categories", "category")

  const LdapServerClass: ObjectClass := Container("LDAPServer", LdapServer, "/ldapservers", "JSSContainerObject")

  const AccountClass: ObjectClass :=
    Container("Account", OtherKind, "/accounts", "JSSContainerObject").(
      container := "users", idUrl := "/userid/",
      searchTypes := map["userid" := "/userid/", "username" := "/username/", "name" := "/username/"])

  const ActivationCodeClass: ObjectClass :=
    Flat("ActivationCode", "/activationcode").(
      listType := "activation_code", canDelete := false, canPost := false, canList := false)

  const SmtpServerClass: ObjectClass :=
    Flat("SMTPServer", "/smtpserver").(idUrl := "", canList := false, canPost := false)

  /** Package's `data_keys`, each with its default text. */
  const PackageKeys: seq<(string, KeyValue)> := [
    ("category", KText(None)), ("info", KText(None)), ("notes", KText(None)),
    ("priority", KText(Some("10"))), ("reboot_required", KText(Some("false"))),
    ("fill_user_template", KText(Some("false"))), ("fill_existing_users", KText(Some("false"))),
    ("boot_volume_required", KText(Some("true"))), ("allow_uninstalled", KText(Some("false"))),
    ("os_requirements", KText(None)), ("required_processor", KText(Some("None"))),
    ("switch_with_package", KText(Some("Do Not Install"))),
    ("install_if_reported_available", KText(Some("false"))),
    ("reinstall_option", KText(Some("Do Not Reinstall"))), ("triggering_files", KText(None)),
    ("send_notification", KText(Some("false")))]

  const PackageClass: ObjectClass :=
    Container("Package", Package, "/packages", "package").(dataKeys := PackageKeys)

  /** The four lists a scope and its exclusions hold. */
  const ScopeLists: seq<(string, KeyValue)> := [
    ("computers", KText(None)), ("computer_groups", KText(None)),
    ("buildings", KText(None)), ("departments", KText(None))]

  /** Policy's nested `data_keys`. */
  const PolicyKeys: seq<(string, KeyValue)> := [
    ("general", KDict([("enabled", KText(Some("true"))), ("frequency", KText(Some("Once per computer"))),
                       ("category", KText(Some("")))])),
    ("scope", KDict(ScopeLists + [("exclusions", KDict(ScopeLists))])),
    ("self_service", KDict([("use_for_self_service", KText(Some("true")))])),
    ("package_configuration", KDict([("packages", KText(None))])),
    ("maintenance", KDict([("recon", KText(Some("true")))]))]

  const PolicyClass: ObjectClass :=
    Container("Policy", Policy, "/policies", "policy").(namePath := "general/name", dataKeys := PolicyKeys)

  /** Computers are searched for by serial number with its own url piece. */
  lemma ComputerBySerialNumber(serial: string)
    requires '=' !in serial
    ensures GetUrl(ComputerClass, DStr("serial_number=" + serial)) == Ok("/computers/serialnumber/" + serial)
  {
    var key := "serial_number";
    assert key in ComputerClass.searchTypes && ComputerClass.searchTypes[key] == "/serialnumber/";
    assert key + "=" + serial == "serial_number=" + serial;
    assert ComputerClass.url + "/serialnumber/" + serial == "/computers/serialnumber/" + serial;
    SearchByKey(ComputerClass, key, serial);
  }

  /** A new Package names its file after the package. */
  lemma PackageFilename(name: string, kwargs: map<string, Value>)
    ensures FindText(Created(PackageClass, name, kwargs), ["filename"]) == Some(name)
  {
    NewPackageFilename(PackageClass, name, kwargs);
  }

  // ---------------------------------------------------------------------------
  // Device properties

  /** `Computer.mac_addresses`: the primary and the alternate address when
      an alternate one is set; without one the property falls off its end
      and gives None. */
  function MacAddresses(e: Element): (r: Option<seq<Option<string>>>)
    ensures r.Some? <==> Truthy(FindText(e, ["general", "alt_mac_address"]))
    ensures r.Some? ==>
      (|r.value| == 2 && r.value[0] == FindText(e, ["general", "mac_address"]) && Truthy(r.value[1]))
  {
    var alt := FindText(e, ["general", "alt_mac_address"]);
    if Truthy(alt) then Some([FindText(e, ["general", "mac_address"]), alt]) else None
  }

  /** `MobileDevice.bluetooth_mac_address`: the Bluetooth address, or the
      device's MAC address when that is missing or empty. */
  function BluetoothMac(e: Element): (r: Option<string>)
    ensures Truthy(FindText(e, ["general", "bluetooth_mac_address"])) ==>
      r == FindText(e, ["general", "bluetooth_mac_address"])
    ensures !Truthy(FindText(e, ["general", "bluetooth_mac_address"])) ==>
      r == FindText(e, ["general", "mac_address"])
  {
    Or(FindText(e, ["general", "bluetooth_mac_address"]), FindText(e, ["general", "mac_address"]))
  }

  // ---------------------------------------------------------------------------
  // LDAPServer

  /** The urls of `search_users` and `search_groups`. */
  function LdapSearchUrl(url: Option<string>, what: string, term: string): (r: string)
    ensures url.Some? ==> r == url.value + "/" + what + "/" + term
    ensures url.None? ==> r == "None/" + what + "/" + term
  {
    (if url.Some? then url.value else "None") + "/" + what + "/" + term
  }

  /** The url `is_user_in_group` asks, built with `%s` from the server's
      url (which shows as "None" for a server without an id). */
  function UserInGroupUrl(url: Option<string>, group: string, user: string): (r: string)
    ensures url.Some? ==> url.value <= r
    ensures url.None? ==> "None" <= r
  {
    (if url.Some? then url.value else "None") + "/group/" + group + "/user/" + user
  }

  const UnexpectedResponse: Error := GetError(None, "Unexpected response.")

  /** `is_user_in_group` on the JSS's response: an unknown user (one child)
      or an empty response is not a member, a two-child response says
      whether this user is a member, and a longer one raises JSSGetError. */
  function UserInGroup(response: Element, user: string): (r: Result<bool>)
    ensures r.Err? <==> |response.children| >= 3
    ensures r.Err? ==> r.error == UnexpectedResponse
    ensures r == Ok(true) <==>
      |response.children| == 2 &&
      FindText(response, ["ldap_user", "username"]) == Some(user) &&
      FindText(response, ["ldap_user", "is_member"]) == Some("Yes")
  {
    var n := |response.children|;
    if n == 1 then Ok(false)
    else if n == 2 then
      Ok(FindText(response, ["ldap_user", "username"]) == Some(user) &&
         FindText(response, ["ldap_user", "is_member"]) == Some("Yes"))
    else if n >= 2 then Err(UnexpectedResponse)
    else Ok(false)
  }

  /** Only a two-child response can make a user a member. */
  lemma MemberNeedsTwoChildren(response: Element, user: string)
    requires |response.children| != 2
    ensures UserInGroup(response, user) != Ok(true)
  {
  }

  // ---------------------------------------------------------------------------
  // FileUpload

  const UploadResourceTypes: seq<string> := [
    "computers", "mobiledevices", "enrollmentprofiles", "peripherals", "policies", "ebooks",
    "mobiledeviceapplicationsicon", "mobiledeviceapplicationsipa", "diskencryptionconfigurations"]

  const UploadIdTypes: seq<string> := ["id", "name"]

  /** A prepared upload: where it goes, the name the file is sent under and
      the url it posts to. */
  datatype Upload = Upload(resourceType: string, idType: string, id: string, fileName: string, url: string)

  /** `"/".join([jss._url, "fileuploads", resource_type, id_type, id])`. */
  function UploadUrl(jssUrl: string, resourceType: string, idType: string, id: string): (r: string)
    ensures r == jssUrl + "/fileuploads/" + resourceType + "/" + idType + "/" + id
  {
    JoinCons(jssUrl, ["fileuploads", resourceType, idType, id], "/");
    JoinCons("fileuploads", [resourceType, idType, id], "/");
    JoinCons(resourceType, [idType, id], "/");
    JoinCons(idType, [id], "/");
    assert ["fileuploads", resourceType, idType, id][1..] == [resourceType, idType, id];
    assert [resourceType, idType, id][1..] == [idType, id];
    assert [jssUrl] + ["fileuploads", resourceType, idType, id] == [jssUrl, "fileuploads", resourceType, idType, id];
    assert ["fileuploads"] + [resourceType, idType, id] == ["fileuploads", resourceType, idType, id];
    assert [resourceType] + [idType, id] == [resourceType, idType, id];
    assert [idType] + [id] == [idType, id];
    Join([jssUrl, "fileuploads", resourceType, idType, id], "/")
  }

  const BadResourceType: Error := FileUploadParameterError("resource_type must be one of the upload resource types")
  const BadIdType: Error := FileUploadParameterError("id_type must be one of: ['id', 'name']")

  /** `FileUpload(j, resource_type, id_type, _id, resource)` with the JSS's
      `_url`, where `resourceIsFile` says whether `resource` names a
      readable file: the resource type is checked first, then the id type;
      then `open(resource, "rb")` raises IOError for anything but a file.
      The id is kept as `str(_id)` and the file is sent under its basename. */
  function NewUpload(jssUrl: string, resourceType: string, idType: string, id: Data,
                     resource: string, resourceIsFile: bool): (r: Result<Upload>)
    ensures r.Ok? <==> resourceType in UploadResourceTypes && idType in UploadIdTypes && resourceIsFile
    ensures resourceType !in UploadResourceTypes ==> r == Err(BadResourceType)
    ensures resourceType in UploadResourceTypes && idType !in UploadIdTypes ==> r == Err(BadIdType)
    ensures resourceType in UploadResourceTypes && idType in UploadIdTypes && !resourceIsFile ==>
      r == Err(IOError(resource))
    ensures r.Ok? ==>
      (r.value.resourceType == resourceType && r.value.idType == idType && r.value.id == Shown(id) &&
       r.value.fileName == Paths.Basename(resource) &&
       r.value.url == jssUrl + "/fileuploads/" + resourceType + "/" + idType + "/" + Shown(id))
  {
    if resourceType !in UploadResourceTypes then Err(BadResourceType)
    else if idType !in UploadIdTypes then Err(BadIdType)
    else if !resourceIsFile then Err(IOError(resource))
    else Ok(Upload(resourceType, idType, Shown(id), Paths.Basename(resource),
                   UploadUrl(jssUrl, resourceType, idType, Shown(id))))
  }

  /** `save()` after the POST: 201 is success, a status of 400 or more
      raises JSSPostError with that status, anything else is let pass. */
  function UploadSaved(status: int): (r: Outcome)
    ensures r.Raised? <==> status >= 400
    ensures r.Raised? ==> r.error.PostError? && r.error.status == Some(status)
  {
    if status == 201 then Done
    else if status >= 400 then Raised(PostError(Some(status), ""))
    else Done
  }

  // ---------------------------------------------------------------------------
  // Policy: scope

  /** The list `add_object_to_scope` (or, with `excluded`,
      `add_object_to_exclusions`) puts an object of that kind in. */
  function ScopeLocation(kind: Kind, excluded: bool): (r: Option<string>)
    ensures r.Some? <==> kind in {Computer, ComputerGroup, Building, Department}
  {
    var list :=
      if kind == Computer then Some("computers")
      else if kind == ComputerGroup then Some("computer_groups")
      else if kind == Building then Some("buildings")
      else if kind == Department then Some("departments")
      else None;
    match list
    case None => None
    case Some(l) => Some(if excluded then "scope/exclusions/" + l else "scope/" + l)
  }

  /** Each exclusion list mirrors its scope list one level down, under
      `scope/exclusions`. */
  lemma ExclusionsMirrorScope(kind: Kind)
    requires ScopeLocation(kind, false).Some?
    ensures var s := ScopeLocation(kind, false).value;
      |s| > 6 && s[..6] == "scope/" && ScopeLocation(kind, true) == Some("scope/exclusions/" + s[6..])
  {
  }

  /** `add_object_to_scope(obj)` (or `add_object_to_exclusions(obj)`): the
      object's list entry is appended to its kind's list; any other kind
      raises TypeError and leaves the policy as it was. */
  method AddObjectToScope(policy: JSSObject, obj: JSSObject, excluded: bool) returns (r: Result<seq<nat>>)
    modifies policy
    ensures ScopeLocation(obj.cls.kind, excluded).None? ==>
      r == Err(TypeError("")) && policy.element == old(policy.element)
    ensures ScopeLocation(obj.cls.kind, excluded).Some? ==>
      var res := AddToPath(old(policy.element), ScopeLocation(obj.cls.kind, excluded).value,
        AsListData(obj.cls, old(obj.element)), IdOf(obj.cls, old(obj.element)));
      policy.element == res.0 && r == res.1
  {
    match ScopeLocation(obj.cls.kind, excluded)
    case None =>
      r := Err(TypeError(""));
    case Some(location) =>
      r := policy.AddObjectToPath(obj, location);
  }

  /** An object with an id that is put in scope can be found there by that
      id. */
  lemma ScopedObjectFound(e: Element, cls: ObjectClass, obj: Element, excluded: bool, s: string)
    requires ScopeLocation(cls.kind, excluded).Some?
    requires FindAddr(e, Path(ScopeLocation(cls.kind, excluded).value)).Some?
    requires IdOf(cls, obj) == Some(s)
    ensures var res := AddToPath(e, ScopeLocation(cls.kind, excluded).value, AsListData(cls, obj), Some(s));
      res.1.Ok? && FindText(At(res.0, res.1.value), ["id"]) == Some(s)
  {
    AddWithIdFinds(e, ScopeLocation(cls.kind, excluded).value, AsListData(cls, obj), s);
  }

  // ---------------------------------------------------------------------------
  // Policy: clear_scope

  /** The fifteen lists `clear_scope` empties, in its order, as path steps
      below the policy. */
  const ScopeSections: seq<seq<string>> := [
    ["scope", "computers"], ["scope", "computer_groups"], ["scope", "buildings"],
    ["scope", "departments"], ["scope", "limit_to_users", "user_groups"],
    ["scope", "limitations", "users"], ["scope", "limitations", "user_groups"],
    ["scope", "limitations", "network_segments"], ["scope", "exclusions", "computers"],
    ["scope", "exclusions", "computer_groups"], ["scope", "exclusions", "buildings"],
    ["scope", "exclusions", "departments"], ["scope", "exclusions", "users"],
    ["scope", "exclusions", "user_groups"], ["scope", "exclusions", "network_segments"]]

  /** `clear_list` of each path in turn. The first path that finds nothing
      raises ValueError, and the lists cleared before it stay cleared. */
  function ClearPaths(e: Element, paths: seq<seq<string>>): (r: (Element, Outcome))
    ensures r.1.Raised? ==> r.1.error == InvalidPath
    decreases |paths|
  {
    if paths == [] then (e, Done)
    else match ClearAt(e, paths[0])
      case Err(x) => (e, Raised(x))
      case Ok(e') => ClearPaths(e', paths[1..])
  }

  /** No path is the start of another, or equal to it. */
  predicate PrefixFree(paths: seq<seq<string>>) {
    forall i, j :: 0 <= i < |paths| && 0 <= j < |paths| && i != j ==> !(paths[i] <= paths[j])
  }

  /** A cleared list stays found and empty while lists that do not lead to
      it are cleared. */
  lemma {:induction false} StaysCleared(e: Element, p: seq<string>, a: seq<nat>, paths: seq<seq<string>>)
    requires FindAddr(e, p) == Some(a) && At(e, a).children == []
    requires forall q :: q in paths ==> !(q <= p)
    requires ClearPaths(e, paths).1 == Done
    ensures var r := ClearPaths(e, paths).0;
      FindAddr(r, p) == Some(a) && ValidAddr(r, a) && At(r, a).children == []
    decreases |paths|
  {
    if paths != [] {
      var q := paths[0];
      var b := FindAddr(e, q).value;
      var x := Cleared(At(e, b));
      var e' := Update(e, b, x);
      assert ClearAt(e, q) == Ok(e');
      assert q in paths;
      ThroughPrefix(e, b, q, p);
      FindAddrUpdate(e, b, x, p);
      ApartOrPrefix(b, a);
      PrefixAddrPrefixPath(e, b, q, a, p);
      BelowHasChildren(e, a, b);
      UpdateElsewhere(e, b, x, a);
      assert forall q' :: q' in paths[1..] ==> q' in paths;
      StaysCleared(e', p, a, paths[1..]);
    }
  }

  /** After a `clear_scope` that did not raise, every one of its lists is
      found and empty, provided no list lies on the way to another. */
  lemma {:induction false} ClearPathsEmpties(e: Element, paths: seq<seq<string>>)
    requires PrefixFree(paths)
    requires ClearPaths(e, paths).1 == Done
    ensures var r := ClearPaths(e, paths).0;
      forall i :: 0 <= i < |paths| ==>
        FindAddr(r, paths[i]).Some? && At(r, FindAddr(r, paths[i]).value).children == []
    decreases |paths|
  {
    if paths != [] {
      var p := paths[0];
      var b := FindAddr(e, p).value;
      var x := Cleared(At(e, b));
      var e' := Update(e, b, x);
      assert ClearAt(e, p) == Ok(e');
      AtUpdate(e, b, x);
      FindAddrUpdate(e, b, x, p);
      assert PrefixFree(paths[1..]) by {
        forall i, j | 0 <= i < |paths| - 1 && 0 <= j < |paths| - 1 && i != j
          ensures !(paths[1..][i] <= paths[1..][j])
        {
          assert paths[1..][i] == paths[i + 1] && paths[1..][j] == paths[j + 1];
        }
      }
      assert forall q :: q in paths[1..] ==> !(q <= p) by {
        forall q | q in paths[1..] ensures !(q <= p) {
          var j :| 0 <= j < |paths| - 1 && paths[1..][j] == q;
          assert paths[j + 1] == q;
        }
      }
      StaysCleared(e', p, b, paths[1..]);
      ClearPathsEmpties(e', paths[1..]);
      var r := ClearPaths(e, paths).0;
      forall i | 0 <= i < |paths|
        ensures FindAddr(r, paths[i]).Some? && At(r, FindAddr(r, paths[i]).value).children == []
      {
        if i > 0 {
          assert paths[i] == paths[1..][i - 1];
        }
      }
    }
  }

  /** A list that is missing from the start, and that no earlier list
      leads to, makes `clear_scope` raise ValueError. */
  lemma {:induction false} ClearStopsAtMissing(e: Element, paths: seq<seq<string>>, k: nat)
    requires k < |paths| && FindAddr(e, paths[k]).None?
    requires forall i :: 0 <= i < k ==> !(paths[i] <= paths[k])
    ensures ClearPaths(e, paths).1 == Raised(InvalidPath)
    decreases k
  {
    if k > 0 {
      var q := paths[0];
      if FindAddr(e, q).Some? {
        var b := FindAddr(e, q).value;
        var x := Cleared(At(e, b));
        var e' := Update(e, b, x);
        assert ClearAt(e, q) == Ok(e');
        ThroughPrefix(e, b, q, paths[k]);
        FindAddrUpdate(e, b, x, paths[k]);
        assert paths[1..][k - 1] == paths[k];
        forall i | 0 <= i < k - 1 ensures !(paths[1..][i] <= paths[1..][k - 1]) {
          assert paths[1..][i] == paths[i + 1];
        }
        ClearStopsAtMissing(e', paths[1..], k - 1);
      }
    }
  }

  /** Every path has at least two steps, and any two differ in their
      second step or have the same length and differ in their last. */
  predicate Separated(paths: seq<seq<string>>) {
    (forall i :: 0 <= i < |paths| ==> |paths[i]| >= 2) &&
    forall i, j :: 0 <= i < j < |paths| ==>
      paths[i][1] != paths[j][1] ||
      (|paths[i]| == |paths[j]| && paths[i][|paths[i]| - 1] != paths[j][|paths[j]| - 1])
  }

  lemma SeparatedPrefixFree(paths: seq<seq<string>>)
    requires Separated(paths)
    ensures PrefixFree(paths)
  {
    forall i, j | 0 <= i < |paths| && 0 <= j < |paths| && i != j ensures !(paths[i] <= paths[j]) {
      if i < j {
        assert paths[i][1] != paths[j][1] || (|paths[i]| == |paths[j]| && paths[i] != paths[j]);
      } else {
        assert paths[j][1] != paths[i][1] || (|paths[j]| == |paths[i]| && paths[j] != paths[i]);
      }
    }
  }

  /** The fifteen scope lists are all different and none lies below
      another. */
  lemma ScopeSectionsPrefixFree()
    ensures PrefixFree(ScopeSections)
  {
    assert Separated(ScopeSections);
    SeparatedPrefixFree(ScopeSections);
  }

  /** `clear_scope()`: each scope list cleared in turn; the first one the
      policy does not have raises ValueError. */
  method ClearScope(policy: JSSObject) returns (r: Outcome)
    modifies policy
    ensures (policy.element, r) == ClearPaths(old(policy.element), ScopeSections)
  {
    r := ClearLists(policy, ScopeSections);
  }

  /** The loop of `clear_scope()` over the lists it names. */
  method ClearLists(policy: JSSObject, paths: seq<seq<string>>) returns (r: Outcome)
    modifies policy
    ensures (policy.element, r) == ClearPaths(old(policy.element), paths)
  {
    var i := 0;
    while i < |paths|
      invariant 0 <= i <= |paths|
      invariant ClearPaths(old(policy.element), paths) == ClearPaths(policy.element, paths[i..])
    {
      assert paths[i..][1..] == paths[i + 1..];
      var res := ClearAt(policy.element, paths[i]);
      if res.Err? {
        r := Raised(res.error);
        return;
      }
      policy.element := res.value;
      i := i + 1;
    }
    r := Done;
  }

  /** `set_self_service(state)` and `set_recon(state)`: `set_bool` on the
      element each names. */
  method SetSelfService(policy: JSSObject, state: Value) returns (r: Outcome)
    modifies policy
    ensures r == OutcomeOf(SetBoolAt(old(policy.element), "self_service/use_for_self_service", state))
    ensures policy.element == After(old(policy.element), SetBoolAt(old(policy.element), "self_service/use_for_self_service", state))
  {
    r := policy.SetBool("self_service/use_for_self_service", state);
  }

  method SetRecon(policy: JSSObject, state: Value) returns (r: Outcome)
    modifies policy
    ensures r == OutcomeOf(SetBoolAt(old(policy.element), "maintenance/recon", state))
    ensures policy.element == After(old(policy.element), SetBoolAt(old(policy.element), "maintenance/recon", state))
  {
    r := policy.SetBool("maintenance/recon", state);
  }

  // ---------------------------------------------------------------------------
  // Groups

  /** `add_computer` and `add_mobile_device`: `add_device` into the group's
      list for that device. */
  method AddComputer(group: JSSObject, computer: JSSObject) returns (r: Result<seq<nat>>)
    modifies group
    ensures var entry := AsListData(computer.cls, old(computer.element));
      var res := AddDeviceTo(old(group.element), "computers", entry, IdOf(computer.cls, old(computer.element)));
      group.element == res.0 && r == res.1
  {
    r := group.AddDevice(computer, "computers");
  }

  method AddMobileDevice(group: JSSObject, device: JSSObject) returns (r: Result<seq<nat>>)
    modifies group
    ensures var entry := AsListData(device.cls, old(device.element));
      var res := AddDeviceTo(old(group.element), "mobile_devices", entry, IdOf(device.cls, old(device.element)));
      group.element == res.0 && r == res.1
  {
    r := group.AddDevice(device, "mobile_devices");
  }

  /** `remove_computer` and `remove_mobile_device`: the device is taken out
      of that list. */
  method RemoveComputer(group: JSSObject, computer: Value) returns (r: Outcome)
    modifies group
    ensures r == OutcomeOf(RemoveAt(old(group.element), "computers", computer))
    ensures group.element == After(old(group.element), RemoveAt(old(group.element), "computers", computer))
  {
    r := group.RemoveObjectFromList(computer, "computers");
  }

  method RemoveMobileDevice(group: JSSObject, device: Value) returns (r: Outcome)
    modifies group
    ensures r == OutcomeOf(RemoveAt(old(group.element), "mobile_devices", device))
    ensures group.element == After(old(group.element), RemoveAt(old(group.element), "mobile_devices", device))
  {
    r := group.RemoveObjectFromList(device, "mobile_devices");
  }

  // ---------------------------------------------------------------------------
  // Policy: packages and category

  const PackagesLocation := "package_configuration/packages"

  /** `add_package(pkg)` for a Package: its list entry is added to the
      policy's packages, and that entry gets an `action` child reading
      "Install". */
  function PackageAdded(e: Element, entry: Element, id: Option<string>): (r: (Element, Result<seq<nat>>))
    ensures var res := AddToPath(e, PackagesLocation, entry, id);
      res.1.Err? ==> r == res
    ensures var res := AddToPath(e, PackagesLocation, entry, id);
      res.1.Ok? ==>
        (r.1 == res.1 && ValidAddr(r.0, r.1.value) &&
         var x := At(r.0, r.1.value);
         |x.children| > 0 && x.children[|x.children| - 1] == Leaf("action", Some("Install")) &&
         FindText(x, ["id"]) == id)
  {
    var res := AddToPath(e, PackagesLocation, entry, id);
    match res.1
    case Err(_) => res
    case Ok(a) =>
      var y := At(res.0, a);
      var x := Appended(y, Leaf("action", Some("Install")));
      AtUpdate(res.0, a, x);
      AppendedChildIndex(y, Leaf("action", Some("Install")), "id");
      FindTextChild(y, "id");
      FindTextChild(x, "id");
      (Update(res.0, a, x), Ok(a))
  }

  /** `add_package(pkg)`: only a Package is added; anything else leaves
      the policy as it was. */
  method AddPackage(policy: JSSObject, pkg: JSSObject) returns (r: Result<seq<nat>>)
    modifies policy
    ensures pkg.cls.kind != Package ==> r == Ok([]) && policy.element == old(policy.element)
    ensures pkg.cls.kind == Package ==>
      (policy.element, r) == PackageAdded(old(policy.element), AsListData(pkg.cls, old(pkg.element)), IdOf(pkg.cls, old(pkg.element)))
  {
    if pkg.cls.kind != Package {
      r := Ok([]);
      return;
    }
    var entry := AsListData(pkg.cls, pkg.element);
    var id := IdOf(pkg.cls, pkg.element);
    var res := PackageAdded(policy.element, entry, id);
    policy.element := res.0;
    r := res.1;
  }

  /** The category argument of `set_category`: a Category object (its name
      and id), a string, or anything else. */
  datatype CategoryArg = CategoryObject(name: Option<string>, id: Option<string>) | CategoryName(s: string) | OtherArg

  /** What `Policy.set_category` leaves in `general/category`: a `name`
      child, then an `id` child for a Category object; the name has no text
      for an argument that is neither. */
  function PolicyCategory(category: CategoryArg): (r: Element)
    ensures r.tag == "category" && r.text.None? && r.tail.None?
    ensures |r.children| >= 1 && r.children[0].tag == "name" && r.children[0].children == []
    ensures category.CategoryObject? <==> |r.children| == 2
    ensures category.CategoryObject? ==>
      r.children[0].text == category.name && r.children[1] == Leaf("id", category.id)
    ensures category.CategoryName? ==> r.children[0].text == Some(category.s)
    ensures category.OtherArg? ==> r.children[0].text.None?
  {
    match category
    case CategoryObject(name, id) => Element("category", None, None, [Leaf("name", name), Leaf("id", id)])
    case CategoryName(s) => Element("category", None, None, [Leaf("name", Some(s))])
    case OtherArg => Element("category", None, None, [Leaf("name", None)])
  }

  const GeneralCategory: seq<string> := ["general", "category"]

  /** `Policy.set_category(category)`: `general/category` is cleared and
      refilled; a policy without it raises AttributeError on None. The same
      element is found there afterwards, and nothing else changes. */
  function PolicyCategorySet(e: Element, category: CategoryArg): (r: Result<Element>)
    ensures r.Err? <==> FindAddr(e, GeneralCategory).None?
    ensures r.Ok? ==> var a := FindAddr(e, GeneralCategory).value;
      FindAddr(r.value, GeneralCategory) == Some(a) && At(r.value, a) == PolicyCategory(category) &&
      forall b :: ValidAddr(e, b) && Apart(a, b) ==> ValidAddr(r.value, b) && At(r.value, b) == At(e, b)
  {
    match FindAddr(e, GeneralCategory)
    case None => Err(AttributeError("clear"))
    case Some(a) =>
      var x := PolicyCategory(category);
      AlongTag(e, a, GeneralCategory);
      FindAddrUpdate(e, a, x, GeneralCategory);
      AtUpdate(e, a, x);
      assert forall b :: ValidAddr(e, b) && Apart(a, b) ==> ValidAddr(Update(e, a, x), b) && At(Update(e, a, x), b) == At(e, b) by {
        forall b | ValidAddr(e, b) && Apart(a, b) ensures ValidAddr(Update(e, a, x), b) && At(Update(e, a, x), b) == At(e, b) {
          UpdateElsewhere(e, a, x, b);
        }
      }
      Ok(Update(e, a, x))
  }

  /** `find(path).text = t`, with AttributeError when nothing is found. */
  function SetTextAt(e: Element, path: seq<string>, t: Option<string>): (r: Result<Element>)
    requires path != []
    ensures r.Err? <==> FindAddr(e, path).None?
    ensures r.Ok? ==>
      FindText(r.value, path) == Some(if t.Some? then t.value else "") && Skeleton(r.value) == Skeleton(e)
  {
    match FindAddr(e, path)
    case None => Err(AttributeError("text"))
    case Some(a) =>
      var x := WithText(At(e, a), t);
      UpdateSkeleton(e, a, x);
      FindAddrSkeleton(Update(e, a, x), e, path);
      AtUpdate(e, a, x);
      Ok(Update(e, a, x))
  }

  /** `Package.set_category(category)`: the `category` text becomes the
      Category's name or the string itself. */
  function PackageCategorySet(e: Element, category: CategoryArg): (r: Result<Element>)
    ensures r.Err? <==> FindAddr(e, ["category"]).None?
    ensures r.Ok? && category.CategoryName? ==> FindText(r.value, ["category"]) == Some(category.s)
    ensures r.Ok? && category.CategoryObject? && category.name.Some? ==>
      FindText(r.value, ["category"]) == category.name
  {
    var name := match category
      case CategoryObject(n, _) => n
      case CategoryName(s) => Some(s)
      case OtherArg => None;
    SetTextAt(e, ["category"], name)
  }

  /** `Package.set_os_requirements(requirements)`. */
  function OsRequirementsSet(e: Element, requirements: string): (r: Result<Element>)
    ensures r.Err? <==> FindAddr(e, ["os_requirements"]).None?
    ensures r.Ok? ==> FindText(r.value, ["os_requirements"]) == Some(requirements)
  {
    SetTextAt(e, ["os_requirements"], Some(requirements))
  }

  /** A new Package has both elements the setters write to. */
  lemma NewPackageSetters(name: string, kwargs: map<string, Value>, category: CategoryArg, requirements: string)
    ensures PackageCategorySet(Created(PackageClass, name, kwargs), category).Ok?
    ensures OsRequirementsSet(Created(PackageClass, name, kwargs), requirements).Ok?
  {
    NewObjectHasKeys(PackageClass, name, kwargs);
    var r := Created(PackageClass, name, kwargs);
    assert PackageClass.dataKeys[0].0 == "category";
    assert PackageClass.dataKeys[9].0 == "os_requirements";
    FindChild(r, "category");
    FindChild(r, "os_requirements");
  }

  /** The setters as methods on the object. */
  method SetPolicyCategory(policy: JSSObject, category: CategoryArg) returns (r: Outcome)
    modifies policy
    ensures r == OutcomeOf(PolicyCategorySet(old(policy.element), category))
    ensures policy.element == After(old(policy.element), PolicyCategorySet(old(policy.element), category))
  {
    var res := PolicyCategorySet(policy.element, category);
    policy.element := After(policy.element, res);
    r := OutcomeOf(res);
  }

  method SetPackageCategory(package: JSSObject, category: CategoryArg) returns (r: Outcome)
    modifies package
    ensures r == OutcomeOf(PackageCategorySet(old(package.element), category))
    ensures package.element == After(old(package.element), PackageCategorySet(old(package.element), category))
  {
    var res := PackageCategorySet(package.element, category);
    package.element := After(package.element, res);
    r := OutcomeOf(res);
  }

  method SetOsRequirements(package: JSSObject, requirements: string) returns (r: Outcome)
    modifies package
    ensures r == OutcomeOf(OsRequirementsSet(old(package.element), requirements))
    ensures package.element == After(old(package.element), OsRequirementsSet(old(package.element), requirements))
  {
    var res := OsRequirementsSet(package.element, requirements);
    package.element := After(package.element, res);
    r := OutcomeOf(res);
  }
}
