/**
 * api/tools.go: the selectors that pick devices out of the registry, and
 * the refresh of every device. A selector is `name` or `name:value`, checked
 * against an ordered table of eight entries (api/api.go); the parser returns
 * the shared table entry and overwrites its value in place.
 */
module Api {
  import opened Bytes
  import opened Wrappers
  import opened Errors
  import opened LifxTypes
  import opened LifxDevice
  import opened Client

  /** The separator of a dynamic selector. */
  const Colon: byte := 0x3A // ':'

  const AllName: Str := [0x61, 0x6C, 0x6C] // "all"
  const LabelName: Str := [0x6C, 0x61, 0x62, 0x65, 0x6C] // "label"
  const UuidName: Str := [0x75, 0x75, 0x69, 0x64] // "uuid"
  const GroupIdName: Str := [0x67, 0x72, 0x6F, 0x75, 0x70, 0x5F, 0x69, 0x64] // "group_id"
  const GroupName: Str := [0x67, 0x72, 0x6F, 0x75, 0x70] // "group"
  const LocationIdName: Str := [0x6C, 0x6F, 0x63, 0x61, 0x74, 0x69, 0x6F, 0x6E, 0x5F, 0x69, 0x64] // "location_id"
  const LocationName: Str := [0x6C, 0x6F, 0x63, 0x61, 0x74, 0x69, 0x6F, 0x6E] // "location"
  const SceneIdName: Str := [0x73, 0x63, 0x65, 0x6E, 0x65, 0x5F, 0x69, 0x64] // "scene_id"

  /** The selector table, in the order the API builds it. */
  const Names: seq<Str> := [AllName, LabelName, UuidName, GroupIdName, GroupName, LocationIdName, LocationName, SceneIdName]

  /** Only `all` is static; every other selector needs a value. */
  const Dynamic: seq<bool> := [false, true, true, true, true, true, true, true]

  /** The table's names are distinct and none contains the separator. */
  lemma NamesAreDistinct()
    ensures forall i, j | 0 <= i < j < 8 :: Names[i] != Names[j]
    ensures forall i | 0 <= i < 8 :: Colon !in Names[i] && |Names[i]| > 0
  {
  }

  /** The index of the first occurrence of b in s. */
  function IndexOf(s: Str, b: byte): (i: nat)
    requires b in s
    ensures i < |s| && s[i] == b && b !in s[..i]
  {
    if s[0] == b then 0
    else
      var i := 1 + IndexOf(s[1..], b);
      assert s[..i] == [s[0]] + s[1..][..i - 1];
      i
  }

  /** The number of occurrences of b in s. */
  function Count(s: Str, b: byte): nat
  {
    if |s| == 0 then 0 else (if s[0] == b then 1 else 0) + Count(s[1..], b)
  }

  /** strings.Split(s, ":"): the pieces between the separators, in order. */
  function Split(s: Str): (parts: seq<Str>)
    ensures |parts| >= 1
    decreases |s|
  {
    if Colon !in s then [s]
    else
      var i := IndexOf(s, Colon);
      [s[..i]] + Split(s[i + 1..])
  }

  /** strings.Join(parts, ":"). */
  function Join(parts: seq<Str>): Str
    requires |parts| >= 1
  {
    if |parts| == 1 then parts[0] else parts[0] + [Colon] + Join(parts[1..])
  }

  /** s has as many separators before index i as s[..i] holds. */
  lemma CountSplitAt(s: Str, b: byte, i: nat)
    requires i < |s| && s[i] == b
    ensures Count(s, b) == Count(s[..i], b) + 1 + Count(s[i + 1..], b)
  {
    if i == 0 {
      assert s[1..] == s[i + 1..];
    } else {
      CountSplitAt(s[1..], b, i - 1);
      assert s[1..][..i - 1] == s[..i][1..];
      assert s[1..][i..] == s[i + 1..];
    }
  }

  /** A string without b counts none of it. */
  lemma CountAbsent(s: Str, b: byte)
    requires b !in s
    ensures Count(s, b) == 0
  {
    if |s| > 0 {
      assert b !in s[1..];
      CountAbsent(s[1..], b);
    }
  }

  /** Split gives one more piece than there are separators, and none of the pieces holds one. */
  lemma {:induction false} SplitCounts(s: Str)
    decreases |s|
    ensures |Split(s)| == Count(s, Colon) + 1
    ensures forall k | 0 <= k < |Split(s)| :: Colon !in Split(s)[k]
  {
    if Colon !in s {
      CountAbsent(s, Colon);
    } else {
      var i := IndexOf(s, Colon);
      CountSplitAt(s, Colon, i);
      CountAbsent(s[..i], Colon);
      SplitCounts(s[i + 1..]);
    }
  }

  /** Joining the pieces of Split restores the string. */
  lemma {:induction false} JoinSplit(s: Str)
    decreases |s|
    ensures Join(Split(s)) == s
  {
    if Colon in s {
      var i := IndexOf(s, Colon);
      var parts, rest := Split(s), Split(s[i + 1..]);
      assert parts == [s[..i]] + rest;
      assert parts[0] == s[..i] && parts[1..] == rest;
      assert Join(parts) == s[..i] + [Colon] + Join(rest);
      JoinSplit(s[i + 1..]);
      assert s == s[..i] + [Colon] + s[i + 1..];
    }
  }

  /** The first index holding b is the only candidate for IndexOf. */
  lemma {:induction false} IndexOfAt(s: Str, b: byte, i: nat)
    requires i < |s| && s[i] == b && b !in s[..i]
    ensures IndexOf(s, b) == i
  {
    if 0 < i {
      assert s[0] == s[..i][0];
      assert s[1..][..i - 1] == s[..i][1..];
      IndexOfAt(s[1..], b, i - 1);
    }
  }

  /** A name with one value splits back into that name and value. */
  lemma SplitNameValue(n: Str, v: Str)
    requires Colon !in n && Colon !in v
    ensures Split(n + [Colon] + v) == [n, v]
  {
    var s := n + [Colon] + v;
    assert s[..|n|] == n && s[|n| + 1..] == v;
    IndexOfAt(s, Colon, |n|);
  }

  /** The index of the first table entry from j on named n (the loops over the selector table). */
  function LookupFrom(n: Str, j: nat): (r: Option<nat>)
    requires j <= 8
    decreases 8 - j
    ensures r.Some? ==> j <= r.value < 8 && Names[r.value] == n
    ensures r.Some? ==> forall i | j <= i < r.value :: Names[i] != n
    ensures r.None? ==> forall i | j <= i < 8 :: Names[i] != n
  {
    if j == 8 then None else if Names[j] == n then Some(j) else LookupFrom(n, j + 1)
  }

  function Lookup(n: Str): (r: Option<nat>)
  {
    LookupFrom(n, 0)
  }

  /** A table entry is found at its own index. */
  lemma LookupName(i: nat)
    requires i < 8
    ensures Lookup(Names[i]) == Some(i)
  {
    NamesAreDistinct();
  }

  /** What parseSelector picks: the index of a table entry, and the value it writes into it, if any. */
  datatype Parsed = Parsed(index: nat, value: Option<Str>)

  /** parseSelector, on the table: the entry it returns and the value it stores, or its error. */
  function Parse(s: Str): (r: Result<Parsed, Error>)
    ensures s == [] ==> r == Ok(Parsed(0, None))
    ensures r.Ok? ==> r.value.index < 8
    ensures r.Ok? && r.value.value.None? ==> s == [] || (s == Names[r.value.index] && !Dynamic[r.value.index])
    ensures r.Ok? && r.value.value.Some? ==> s == Names[r.value.index] + [Colon] + r.value.value.value
    ensures r.Err? ==> r.error == NotValid || r.error == NotFound
  {
    if |s| == 0 then Ok(Parsed(0, None))
    else if Colon !in s then
      match Lookup(s)
      case None => Err(NotFound)
      case Some(i) => if Dynamic[i] then Err(NotValid) else Ok(Parsed(i, None))
    else
      var parts := Split(s);
      if |parts| != 2 then Err(NotValid)
      else
        match Lookup(parts[0])
        case None => Err(NotFound)
        case Some(i) =>
          JoinSplit(s);
          assert Split(s)[1..] == [parts[1]];
          Ok(Parsed(i, Some(parts[1])))
  }

  /** A static name parses to its entry; a dynamic name alone is not valid. */
  lemma ParseName(i: nat)
    requires i < 8
    ensures Parse(Names[i]) == if Dynamic[i] then Err(NotValid) else Ok(Parsed(i, None))
  {
    NamesAreDistinct();
    LookupName(i);
  }

  /** `name:value` parses to the entry and value it names, for every entry, static `all` included. */
  lemma ParseNameValue(i: nat, v: Str)
    requires i < 8 && Colon !in v
    ensures Parse(Names[i] + [Colon] + v) == Ok(Parsed(i, Some(v)))
  {
    NamesAreDistinct();
    LookupName(i);
    SplitNameValue(Names[i], v);
    assert (Names[i] + [Colon] + v)[|Names[i]|] == Colon;
  }

  /** More than one separator is not valid. */
  lemma ParseTooManyColons(s: Str)
    requires Count(s, Colon) >= 2
    ensures Parse(s) == Err(NotValid)
  {
    SplitCounts(s);
    if Colon !in s {
      CountAbsent(s, Colon);
    }
  }

  /** A name not in the table is not found, with or without a value. */
  lemma ParseUnknownName(n: Str, v: Option<Str>)
    requires Colon !in n && forall i | 0 <= i < 8 :: Names[i] != n
    requires v.None? ==> |n| > 0
    requires v.Some? ==> Colon !in v.value
    ensures Parse(if v.Some? then n + [Colon] + v.value else n) == Err(NotFound)
  {
    if v.Some? {
      SplitNameValue(n, v.value);
      assert (n + [Colon] + v.value)[|n|] == Colon;
    }
  }

  /** An entry of the selector table. */
  class Selector {
    const name: Str
    const isDynamic: bool
    var value: Str

    constructor (name: Str, isDynamic: bool)
      ensures this.name == name && this.isDynamic == isDynamic && value == []
    {
      this.name := name;
      this.isDynamic := isDynamic;
      value := [];
    }

    /** selector.String: `name:value` for a dynamic selector, the bare name for a static one. */
    function String(): (r: Str)
      reads this
      ensures |r| >= |name| && r[..|name|] == name
      ensures |r| > |name| <==> isDynamic
      ensures isDynamic ==> r[|name|] == Colon && r[|name| + 1..] == value
    {
      if isDynamic then name + [Colon] + value else name
    }
  }

  /** A device matches a dynamic selector by its label, UUID, group label or location label. */
  predicate Matches(name: Str, value: Str, d: Lifx)
    reads d
    requires name == GroupName ==> d.group.Some?
    requires name == LocationName ==> d.location.Some?
    ensures Matches(name, value, d) ==> Filtering(name)
  {
    if name == LabelName then value == d.name
    else if name == UuidName then value == d.uuid
    else if name == GroupName then value == d.group.value.name
    else if name == LocationName then value == d.location.value.name
    else false
  }

  /** Every device has the group or location the selector reads (the source dereferences them). */
  predicate Readable(name: Str, ds: seq<Lifx>)
    reads ds
  {
    forall i | 0 <= i < |ds| :: (name == GroupName ==> ds[i].group.Some?) && (name == LocationName ==> ds[i].location.Some?)
  }

  /** The devices of ds that match, in the order of ds. */
  function Filter(name: Str, value: Str, ds: seq<Lifx>): (m: seq<Lifx>)
    reads ds
    requires Readable(name, ds)
    ensures |m| <= |ds|
    ensures forall x | x in m :: x in ds && Matches(name, value, x)
  {
    if |ds| == 0 then []
    else
      var last := ds[|ds| - 1];
      Filter(name, value, ds[..|ds| - 1]) + (if Matches(name, value, last) then [last] else [])
  }

  /** Filtering a concatenation filters each part in turn, so the registry order is kept. */
  lemma {:induction false} FilterAppend(name: Str, value: Str, ds: seq<Lifx>, es: seq<Lifx>)
    requires Readable(name, ds + es)
    decreases |es|
    ensures Readable(name, ds) && Readable(name, es)
    ensures Filter(name, value, ds + es) == Filter(name, value, ds) + Filter(name, value, es)
  {
    assert forall i | 0 <= i < |ds| :: ds[i] == (ds + es)[i];
    assert forall i | 0 <= i < |es| :: es[i] == (ds + es)[|ds| + i];
    if |es| > 0 {
      var init := es[..|es| - 1];
      assert (ds + es)[..|ds + es| - 1] == ds + init;
      assert forall i | 0 <= i < |init| :: init[i] == es[i];
      FilterAppend(name, value, ds, init);
    } else {
      assert ds + es == ds;
    }
  }

  /** A device is in the filtered list exactly when it is in ds and matches. */
  lemma {:induction false} FilterMembers(name: Str, value: Str, ds: seq<Lifx>, x: Lifx)
    requires Readable(name, ds)
    requires name == GroupName ==> x.group.Some?
    requires name == LocationName ==> x.location.Some?
    decreases |ds|
    ensures x in Filter(name, value, ds) <==> x in ds && Matches(name, value, x)
  {
    if |ds| > 0 {
      var init := ds[..|ds| - 1];
      assert ds == init + [ds[|ds| - 1]];
      assert forall i | 0 <= i < |init| :: init[i] == ds[i];
      FilterMembers(name, value, init, x);
    }
  }

  /** The dynamic selectors whose resolution the source has not written. */
  predicate Unimplemented(name: Str)
  {
    name == GroupIdName || name == LocationIdName || name == SceneIdName
  }

  /** The dynamic selectors that filter the registry. */
  predicate Filtering(name: Str)
  {
    name == LabelName || name == UuidName || name == GroupName || name == LocationName
  }

  /**
   * sortBySelector: the whole registry for `all`, the matching devices for a
   * filtering selector, and an error for the rest; the switch sits inside the
   * loop, so an empty registry is NotFound for every selector.
   */
  function Resolve(name: Str, value: Str, registry: seq<Lifx>): (r: Result<seq<Lifx>, Error>)
    reads registry
    requires Readable(name, registry)
    ensures r.Ok? ==> |r.value| > 0 && forall x | x in r.value :: x in registry
  {
    if |registry| == 0 then Err(NotFound)
    else if name == AllName then Ok(registry)
    else if Unimplemented(name) then Err(NotImplemented)
    else if !Filtering(name) then Err(NotFound)
    else
      var m := Filter(name, value, registry);
      if |m| == 0 then Err(NotFound) else Ok(m)
  }

  /**
   * A resolved list is never empty; `all` gives the registry, the id
   * selectors are not implemented, a name outside the table is not found, a
   * filtering selector gives exactly the registry's matching devices, and an
   * empty registry is never resolved.
   */
  lemma ResolveMeans(name: Str, value: Str, registry: seq<Lifx>, x: Lifx)
    requires Readable(name, registry)
    requires name == GroupName ==> x.group.Some?
    requires name == LocationName ==> x.location.Some?
    ensures var r := Resolve(name, value, registry);
            && (r.Ok? ==> |r.value| > 0 && |registry| > 0)
            && (|registry| == 0 ==> r == Err(NotFound))
            && (name == AllName && |registry| > 0 ==> r == Ok(registry))
            && (name in [GroupIdName, LocationIdName, SceneIdName] && |registry| > 0 ==> r == Err(NotImplemented))
            && (name !in Names ==> r == Err(NotFound))
            && (Filtering(name) && r.Ok? ==> (x in r.value <==> x in registry && Matches(name, value, x)))
            && (Filtering(name) && |registry| > 0 && r.Err? ==> r.error == NotFound && forall i | 0 <= i < |registry| :: !Matches(name, value, registry[i]))
  {
    FilterMembers(name, value, registry, x);
    if Filtering(name) && |registry| > 0 && Resolve(name, value, registry).Err? {
      forall i | 0 <= i < |registry|
        ensures !Matches(name, value, registry[i])
      {
        FilterMembers(name, value, registry, registry[i]);
      }
    }
  }

  /** The snapshots of several devices, in order. */
  function Snapshots(ds: seq<Lifx>): (ss: seq<Device>)
    reads ds
    ensures |ss| == |ds| && forall i | 0 <= i < |ds| :: ss[i] == ds[i].Snapshot()
  {
    if |ds| == 0 then [] else Snapshots(ds[..|ds| - 1]) + [ds[|ds| - 1].Snapshot()]
  }

  /** Update of one device, or None when a reply it decodes is too short (a slice the source would panic on). */
  function Refresh(net: Network, source: Bytes4, products: map<uint32, Product>): Device -> Option<Outcome>
  {
    d => if RefreshDecodable(d, net, source, products) then Some(UpdateOutcome(d, net, source, products)) else None
  }

  /** Every device updateLifx reaches, from device j on, has a defined run. */
  predicate UpdatableFrom(ds: seq<Device>, j: nat, run: Device -> Option<Outcome>)
    requires j <= |ds|
    decreases |ds| - j
  {
    j == |ds| ||
    (run(ds[j]).Some? &&
     (run(ds[j]).value.err.None? ==> UpdatableFrom(ds[j := run(ds[j]).value.device], j + 1, run)))
  }

  /**
   * updateLifx from device j on: each device in turn is replaced by its
   * updated self, and the first error stops the run and is returned.
   */
  function UpdateFrom(ds: seq<Device>, j: nat, run: Device -> Option<Outcome>): (r: (seq<Device>, Option<Error>))
    requires j <= |ds| && UpdatableFrom(ds, j, run)
    decreases |ds| - j
    ensures |r.0| == |ds|
  {
    if j == |ds| then (ds, None)
    else
      var o := run(ds[j]).value;
      if o.err.Some? then (ds[j := o.device], o.err)
      else UpdateFrom(ds[j := o.device], j + 1, run)
  }

  /** The first device from j on whose run fails, or |ds| when none does. */
  function FirstUpdateFailure(ds: seq<Device>, j: nat, run: Device -> Option<Outcome>): (k: nat)
    requires j <= |ds| && UpdatableFrom(ds, j, run)
    decreases |ds| - j
    ensures j <= k <= |ds|
  {
    if j == |ds| || run(ds[j]).value.err.Some? then j
    else FirstUpdateFailure(ds[j := run(ds[j]).value.device], j + 1, run)
  }

  /**
   * updateLifx updates the devices in registry order up to and including the
   * first one that fails, returns that device's error, and leaves every later
   * device, and every device before j, as it was.
   */
  lemma {:induction false} UpdateStopsAtFirstError(ds: seq<Device>, j: nat, run: Device -> Option<Outcome>)
    requires j <= |ds| && UpdatableFrom(ds, j, run)
    decreases |ds| - j
    ensures var r := UpdateFrom(ds, j, run);
            var k := FirstUpdateFailure(ds, j, run);
            && (forall i | j <= i < |ds| && i <= k :: run(ds[i]).Some?)
            && (forall i | j <= i < |ds| && i < k :: run(ds[i]).value.err.None?)
            && (forall i | j <= i < |ds| && i <= k :: r.0[i] == run(ds[i]).value.device)
            && (forall i | 0 <= i < |ds| && (i < j || k < i) :: r.0[i] == ds[i])
            && r.1 == (if k < |ds| then run(ds[k]).value.err else None)
  {
    if j < |ds| && run(ds[j]).value.err.None? {
      var next := ds[j := run(ds[j]).value.device];
      UpdateStopsAtFirstError(next, j + 1, run);
      assert forall i | j < i < |ds| :: next[i] == ds[i];
    }
  }

  /** The API: the selector table and the registry of devices from the configuration. */
  class Api {
    const selectors: seq<Selector>
    const registry: seq<Lifx>

    /** The selectors are the table's entries, in its order. */
    predicate Valid()
    {
      |selectors| == 8 && forall i | 0 <= i < 8 :: selectors[i].name == Names[i] && selectors[i].isDynamic == Dynamic[i]
    }

    /** New: the selector table, built fresh, and the registry. */
    constructor (registry: seq<Lifx>)
      ensures Valid() && this.registry == registry
      ensures forall i | 0 <= i < 8 :: fresh(selectors[i]) && selectors[i].value == []
    {
      var all := new Selector(AllName, false);
      var labelEntry := new Selector(LabelName, true);
      var id := new Selector(UuidName, true);
      var groupID := new Selector(GroupIdName, true);
      var group := new Selector(GroupName, true);
      var locationID := new Selector(LocationIdName, true);
      var location := new Selector(LocationName, true);
      var sceneID := new Selector(SceneIdName, true);
      selectors := [all, labelEntry, id, groupID, group, locationID, location, sceneID];
      this.registry := registry;
    }

    /** The values currently stored in the selector table. */
    function Values(): (vs: seq<Str>)
      requires Valid()
      reads selectors
      ensures |vs| == 8 && forall i | 0 <= i < 8 :: vs[i] == selectors[i].value
    {
      [selectors[0].value, selectors[1].value, selectors[2].value, selectors[3].value,
       selectors[4].value, selectors[5].value, selectors[6].value, selectors[7].value]
    }

    /** Overwrites the value of table entry i, which no other entry shares. */
    method Store(i: nat, v: Str)
      requires Valid() && i < 8
      modifies selectors[i]
      ensures Values() == old(Values())[i := v]
    {
      selectors[i].value := v;
      assert forall k | 0 <= k < 8 && k != i :: selectors[k] != selectors[i] by {
        NamesAreDistinct();
      }
    }

    /** The loop of parseSelector over the table: the first entry named n. */
    method Find(n: Str) returns (r: Option<nat>)
      requires Valid()
      ensures r == Lookup(n)
    {
      var i := 0;
      while i < |selectors|
        invariant 0 <= i <= 8
        invariant LookupFrom(n, 0) == LookupFrom(n, i)
      {
        if n == selectors[i].name {
          return Some(i);
        }
        i := i + 1;
      }
      return None;
    }

    /**
     * parseSelector: the table entry Parse picks, shared and not copied; a
     * value given after the separator is written into that entry.
     */
    method ParseSelector(s: Str) returns (r: Result<Selector, Error>)
      requires Valid()
      modifies set i | 0 <= i < 8 :: selectors[i]
      ensures var p := Parse(s);
              && (p.Err? ==> r == Err(p.error))
              && (p.Ok? ==> r == Ok(selectors[p.value.index]))
              && Values() == if p.Ok? && p.value.value.Some? then old(Values())[p.value.index := p.value.value.value] else old(Values())
    {
      if |s| == 0 {
        return Ok(selectors[0]);
      }
      if Colon !in s {
        var found := Find(s);
        if found.None? {
          return Err(NotFound);
        }
        var entry := selectors[found.value];
        if entry.isDynamic {
          return Err(NotValid);
        }
        return Ok(entry);
      }
      var parts := Split(s);
      if |parts| != 2 {
        return Err(NotValid);
      }
      var found := Find(parts[0]);
      if found.None? {
        return Err(NotFound);
      }
      Store(found.value, parts[1]);
      return Ok(selectors[found.value]);
    }

    /** sortBySelector: the devices the selector picks out of the registry. */
    method SortBySelector(sel: Selector) returns (r: Result<seq<Lifx>, Error>)
      requires Readable(sel.name, registry)
      ensures r == Resolve(sel.name, sel.value, registry)
    {
      var devices: seq<Lifx> := [];
      var i := 0;
      while i < |registry|
        invariant 0 <= i <= |registry|
        invariant i > 0 ==> Filtering(sel.name)
        invariant devices == Filter(sel.name, sel.value, registry[..i])
      {
        var device := registry[i];
        assert registry[..i + 1][..i] == registry[..i];
        if sel.name == AllName {
          return Ok(registry);
        } else if sel.name == LabelName {
          if sel.value == device.name {
            devices := devices + [device];
          }
        } else if sel.name == UuidName {
          if sel.value == device.uuid {
            devices := devices + [device];
          }
        } else if sel.name == GroupIdName {
          return Err(NotImplemented);
        } else if sel.name == GroupName {
          if sel.value == device.group.value.name {
            devices := devices + [device];
          }
        } else if sel.name == LocationIdName {
          return Err(NotImplemented);
        } else if sel.name == LocationName {
          if sel.value == device.location.value.name {
            devices := devices + [device];
          }
        } else if sel.name == SceneIdName {
          return Err(NotImplemented);
        } else {
          return Err(NotFound);
        }
        i := i + 1;
      }
      assert registry[..i] == registry;
      if |devices| == 0 {
        return Err(NotFound);
      }
      return Ok(devices);
    }

    /**
     * One step of updateLifx: Update on device i, whose snapshots before the
     * step are cur; device i takes the outcome of Refresh and no other changes.
     */
    method UpdateDevice(i: nat, net: Network, source: Bytes4, products: map<uint32, Product>, ghost cur: seq<Device>) returns (err: Option<Error>)
      requires i < |registry| && forall j, k | 0 <= j < k < |registry| :: registry[j] != registry[k]
      requires |cur| == |registry| && forall k | 0 <= k < |registry| :: registry[k].Snapshot() == cur[k]
      requires Refresh(net, source, products)(cur[i]).Some?
      modifies registry[i]
      ensures Refresh(net, source, products)(cur[i]) == Some(Outcome(registry[i].Snapshot(), err))
      ensures forall k | 0 <= k < |registry| :: registry[k].Snapshot() == cur[i := registry[i].Snapshot()][k]
    {
      var device := registry[i];
      err := device.Update(net, source, products);
      forall k | 0 <= k < |registry|
        ensures registry[k].Snapshot() == cur[i := registry[i].Snapshot()][k]
      {
        if k != i {
          assert registry[k] != device;
        }
      }
    }

    /** updateLifx: Update every device in registry order, stopping at the first error. */
    method UpdateLifx(net: Network, source: Bytes4, products: map<uint32, Product>) returns (err: Option<Error>)
      requires forall i, j | 0 <= i < j < |registry| :: registry[i] != registry[j]
      requires UpdatableFrom(Snapshots(registry), 0, Refresh(net, source, products))
      modifies set i | 0 <= i < |registry| :: registry[i]
      ensures var r := UpdateFrom(old(Snapshots(registry)), 0, Refresh(net, source, products));
              err == r.1 && forall k | 0 <= k < |registry| :: registry[k].Snapshot() == r.0[k]
    {
      ghost var ds := Snapshots(registry);
      ghost var run := Refresh(net, source, products);
      ghost var cur := ds;
      var i := 0;
      while i < |registry|
        invariant 0 <= i <= |registry|
        invariant |cur| == |registry| && forall k | 0 <= k < |registry| :: registry[k].Snapshot() == cur[k]
        invariant UpdatableFrom(cur, i, run)
        invariant UpdateFrom(cur, i, run) == UpdateFrom(ds, 0, run)
      {
        err := UpdateDevice(i, net, source, products, cur);
        cur := cur[i := registry[i].Snapshot()];
        if err.Some? {
          return;
        }
        i := i + 1;
      }
      err := None;
    }
  }

  /** Printing a table entry and parsing the text back gives the same entry, and the same value when it is dynamic. */
  lemma StringParsesBack(api: Api, i: nat)
    requires api.Valid() && i < 8
    requires Colon !in api.selectors[i].value
    ensures Parse(api.selectors[i].String()) == Ok(Parsed(i, if Dynamic[i] then Some(api.selectors[i].value) else None))
  {
    if Dynamic[i] {
      ParseNameValue(i, api.selectors[i].value);
    } else {
      ParseName(i);
    }
  }

  /** `all:x` parses, and stores x in the shared `all` entry, but `all` always prints as its bare name. */
  lemma AllPrintsWithoutValue(api: Api, v: Str)
    requires api.Valid() && Colon !in v
    ensures Parse(AllName + [Colon] + v) == Ok(Parsed(0, Some(v)))
    ensures api.selectors[0].String() == AllName
  {
    ParseNameValue(0, v);
  }
}
