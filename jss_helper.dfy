/** jss_helper.py: reading the policy ids out of a policy listing, and
    finding the policies scoped to a computer group. Fetching the listing
    and each policy is not modelled: the search takes the fetched policies
    as its input. Its `indent` is the pretty-printer of module Xml. */
module JssHelper {
  import opened Errors
  import opened Xml

  // ---------------------------------------------------------------------------
  // Policy ids

  /** `get_policy_ids(xmldata)`: the text of every policy/id element, in
      document order. */
  function PolicyIds(xmldata: Element): (r: seq<Option<string>>)
    ensures |r| == |FindAll(xmldata, IdPath)|
    ensures forall i :: 0 <= i < |r| ==> r[i] == FindAll(xmldata, IdPath)[i].text
  {
    var found := FindAll(xmldata, IdPath);
    seq(|found|, i requires 0 <= i < |found| => found[i].text)
  }

  /** A policy entry of a listing: an "id" child first, and no other. */
  predicate Entry(p: Element) {
    p.tag == "policy" && |p.children| > 0 && p.children[0].tag == "id" && p.children[0].children == [] &&
    forall j :: 1 <= j < |p.children| ==> p.children[j].tag != "id"
  }

  /** No child from `k` on starts the path: nothing is selected there. */
  lemma {:induction false} AllInNone(e: Element, path: seq<string>, k: nat)
    requires path != [] && k <= |e.children|
    requires forall j :: k <= j < |e.children| ==> e.children[j].tag != path[0]
    ensures AllIn(e, path, k) == []
    decreases |e.children| - k
  {
    if k < |e.children| {
      AllInNone(e, path, k + 1);
    }
  }

  /** An entry's "id" is the one element `findall('id')` selects in it. */
  lemma EntryId(p: Element)
    requires Entry(p)
    ensures FindAll(p, ["id"]) == [p.children[0]]
  {
    AllInNone(p, ["id"], 1);
    assert ["id"][1..] == [];
    assert FindAll(p.children[0], []) == [p.children[0]];
  }

  const IdPath: seq<string> := ["policy", "id"]

  /** Each entry of a listing selects its own id, after those before it. */
  lemma {:induction false} EntriesStep(e: Element, k: nat)
    requires 1 <= k < |e.children| && Entry(e.children[k])
    ensures AllIn(e, IdPath, k) == [e.children[k].children[0]] + AllIn(e, IdPath, k + 1)
  {
    EntryId(e.children[k]);
    assert IdPath[1..] == ["id"];
  }

  lemma {:induction false} EntriesCount(e: Element, k: nat)
    requires 1 <= k <= |e.children|
    requires forall j :: 1 <= j < |e.children| ==> Entry(e.children[j])
    ensures |AllIn(e, IdPath, k)| == |e.children| - k
    decreases |e.children| - k
  {
    if k < |e.children| {
      EntriesCount(e, k + 1);
      EntriesStep(e, k);
    }
  }

  /** The entry at `i` gives the id at its own place. */
  lemma {:induction false} EntryIdAt(e: Element, k: nat, i: nat)
    requires 1 <= k <= i < |e.children|
    requires forall j :: 1 <= j < |e.children| ==> Entry(e.children[j])
    ensures Entry(e.children[i]) && i - k < |AllIn(e, IdPath, k)| && AllIn(e, IdPath, k)[i - k] == e.children[i].children[0]
    decreases i - k
  {
    EntriesStep(e, k);
    if k < i {
      EntryIdAt(e, k + 1, i);
    }
  }

  /** A listing "size" first and then policy entries gives the entries'
      ids, in order. */
  lemma PolicyIdsOfListing(e: Element)
    requires |e.children| > 0 && e.children[0].tag == "size"
    requires forall j :: 1 <= j < |e.children| ==> Entry(e.children[j])
    ensures var r := PolicyIds(e);
      |r| == |e.children| - 1 && forall i :: 1 <= i < |e.children| ==> Entry(e.children[i]) && r[i - 1] == e.children[i].children[0].text
  {
    EntriesCount(e, 1);
    assert FindAll(e, IdPath) == AllIn(e, IdPath, 1);
    forall i | 1 <= i < |e.children|
      ensures FindAll(e, IdPath)[i - 1] == e.children[i].children[0]
    {
      EntryIdAt(e, 1, i);
    }
  }

  // ---------------------------------------------------------------------------
  // Policies scoped to a computer group

  /** `'scope/computer_groups/computer_group'`. */
  const Search: seq<string> := ["scope", "computer_groups", "computer_group"]

  /** What is appended for a policy: its `general/id` and `general/name`
      elements. */
  type Found = (Option<Element>, Option<Element>)

  function FoundOf(policy: Element): Found {
    (Find(policy, ["general", "id"]), Find(policy, ["general", "name"]))
  }

  /** A scope entry whose `findtext('name')` is the group. */
  predicate Names(g: Element, group: string) {
    FindText(g, ["name"]) == Some(group)
  }

  /** The scope entries that name the group. */
  function Naming(groups: seq<Element>, group: string): (r: seq<Element>)
    ensures forall g :: g in r <==> g in groups && Names(g, group)
  {
    if groups == [] then []
    else Naming(groups[..|groups| - 1], group) + (if Names(groups[|groups| - 1], group) then [groups[|groups| - 1]] else [])
  }

  /** What the inner loop appends for one policy over its scope entries. */
  function Hits(policy: Element, groups: seq<Element>, group: string): (r: seq<Found>)
    ensures forall x :: x in r ==> x == FoundOf(policy)
  {
    if groups == [] then []
    else Hits(policy, groups[..|groups| - 1], group) + (if Names(groups[|groups| - 1], group) then [FoundOf(policy)] else [])
  }

  /** What the search returns for the policies. */
  function Scoped(policies: seq<Element>, group: string): seq<Found> {
    if policies == [] then []
    else
      var p := policies[|policies| - 1];
      Scoped(policies[..|policies| - 1], group) + Hits(p, FindAll(p, Search), group)
  }

  /** One entry per scope entry that names the group. */
  lemma {:induction false} HitsCount(policy: Element, groups: seq<Element>, group: string)
    ensures |Hits(policy, groups, group)| == |Naming(groups, group)|
  {
    if groups != [] {
      HitsCount(policy, groups[..|groups| - 1], group);
    }
  }

  /** A policy is scoped to the group when one of its scope entries names
      the group. */
  predicate ScopedTo(policy: Element, group: string) {
    Naming(FindAll(policy, Search), group) != []
  }

  /** A policy's entries are its id and name, present exactly when one of
      the scope entries names the group. */
  lemma HitsMembers(policy: Element, groups: seq<Element>, group: string, x: Found)
    ensures x in Hits(policy, groups, group) <==> x == FoundOf(policy) && Naming(groups, group) != []
  {
    HitsCount(policy, groups, group);
  }

  lemma ScopedStep(policies: seq<Element>, i: nat)
    requires i < |policies|
    ensures forall group :: (Scoped(policies[..i + 1], group)
      == Scoped(policies[..i], group) + Hits(policies[i], FindAll(policies[i], Search), group))
  {
    assert policies[..i + 1][..i] == policies[..i];
  }

  /** Every result is the id and name of a policy scoped to the group. */
  lemma {:induction false} ScopedSound(policies: seq<Element>, group: string, x: Found)
    requires x in Scoped(policies, group)
    ensures exists i :: 0 <= i < |policies| && ScopedTo(policies[i], group) && x == FoundOf(policies[i])
  {
    var n := |policies| - 1;
    var p := policies[n];
    ScopedStep(policies, n);
    assert policies[..n + 1] == policies;
    if x in Scoped(policies[..n], group) {
      ScopedSound(policies[..n], group, x);
      var i :| 0 <= i < n && ScopedTo(policies[..n][i], group) && x == FoundOf(policies[..n][i]);
      assert policies[..n][i] == policies[i];
    } else {
      HitsMembers(p, FindAll(p, Search), group, x);
      assert ScopedTo(policies[n], group) && x == FoundOf(policies[n]);
    }
  }

  /** Every policy scoped to the group gives a result. */
  lemma {:induction false} ScopedComplete(policies: seq<Element>, group: string, i: nat)
    requires i < |policies| && ScopedTo(policies[i], group)
    ensures FoundOf(policies[i]) in Scoped(policies, group)
  {
    var n := |policies| - 1;
    ScopedStep(policies, n);
    assert policies[..n + 1] == policies;
    if i < n {
      ScopedComplete(policies[..n], group, i);
      assert policies[..n][i] == policies[i];
    } else {
      HitsMembers(policies[n], FindAll(policies[n], Search), group, FoundOf(policies[n]));
    }
  }

  /** `get_policies_scoped_to_computer_group(group)` over the fetched
      policies: for each policy in order, for each of its scope entries
      naming the group, the policy's id and name elements. */
  method PoliciesScopedTo(policies: seq<Element>, group: string) returns (results: seq<Found>)
    ensures results == Scoped(policies, group)
  {
    results := [];
    var i := 0;
    while i < |policies|
      invariant 0 <= i <= |policies| && results == Scoped(policies[..i], group)
    {
      var policy := policies[i];
      var groups := FindAll(policy, Search);
      var j := 0;
      while j < |groups|
        invariant 0 <= j <= |groups|
        invariant results == Scoped(policies[..i], group) + Hits(policy, groups[..j], group)
      {
        if FindText(groups[j], ["name"]) == Some(group) {
          results := results + [(Find(policy, ["general", "id"]), Find(policy, ["general", "name"]))];
        }
        assert groups[..j + 1][..j] == groups[..j] && groups[..j + 1][j] == groups[j];
        j := j + 1;
      }
      assert groups[..j] == groups;
      ScopedStep(policies, i);
      i := i + 1;
    }
    assert policies[..i] == policies;
  }
}
