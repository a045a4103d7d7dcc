/** How migration 0018 gives every row of a narrower key its own name: one row of each group
    keeps the name, the others receive a fresh digest-derived one. Version rows use it with the
    document as scope and the build key as name, cache rows with (dimensions, hash) and the model. */
module CompatibilityNames {
  import opened Prelude
  import opened EnvelopeCodec

  function Candidate(c: Codec, kind: string, identity: string, counter: nat): string {
    "0018-" + kind + "-" + c.digest(identity + "\0" + Decimal(counter))
  }

  lemma CandidatesDiffer(c: Codec, kind: string, identity: string, a: nat, b: nat)
    requires c.Faithful() && a != b
    ensures Candidate(c, kind, identity, a) != Candidate(c, kind, identity, b)
  {
    var prefix := "0018-" + kind + "-";
    var x, y := identity + "\0" + Decimal(a), identity + "\0" + Decimal(b);
    if Candidate(c, kind, identity, a) == Candidate(c, kind, identity, b) {
      assert (prefix + c.digest(x))[|prefix|..] == (prefix + c.digest(y))[|prefix|..];
      assert c.digest(x) == c.digest(y);
      assert x[|identity| + 1..] == Decimal(a) && y[|identity| + 1..] == Decimal(b);
      DecimalInjective(a, b);
    }
  }

  /** So many candidates are taken only if so many names are. */
  lemma TakenCandidates(c: Codec, kind: string, identity: string, used: set<string>, n: nat)
    requires c.Faithful() && forall i | 0 <= i < n :: Candidate(c, kind, identity, i) in used
    ensures n <= |used|
  {
    hide Candidate, Codec.Faithful;
    forall i, j | 0 <= i < j < n ensures Candidate(c, kind, identity, i) != Candidate(c, kind, identity, j) {
      CandidatesDiffer(c, kind, identity, i, j);
    }
    Pigeonhole((i: nat) => Candidate(c, kind, identity, i), used, n);
  }

  /** `_compat_key`: the first candidate not taken yet, found within |used| + 1 tries. */
  method CompatKey(c: Codec, kind: string, identity: string, used: set<string>)
    returns (key: string, used': set<string>, tries: nat)
    requires c.Faithful()
    ensures key !in used && used' == used + {key}
    ensures 1 <= tries <= |used| + 1
    ensures key == Candidate(c, kind, identity, tries - 1)
    ensures forall i | 0 <= i < tries - 1 :: Candidate(c, kind, identity, i) in used
  {
    hide Candidate, Codec.Faithful;
    var counter := 0;
    while true
      invariant forall i | 0 <= i < counter :: Candidate(c, kind, identity, i) in used
      invariant counter <= |used|
      decreases |used| - counter
    {
      var candidate := Candidate(c, kind, identity, counter);
      if candidate !in used {
        return candidate, used + {candidate}, counter + 1;
      }
      counter := counter + 1;
      TakenCandidates(c, kind, identity, used, counter);
    }
  }

  /** What a narrow key leaves beside the name: the document of a version, or the
      dimensions and content hash of a cache row. */
  datatype Scope = OfDocument(document: string) | OfContent(dimensions: int, hash: string)

  /** The rows that would clash under the narrower key. */
  datatype Group = Group(scope: Scope, name: string)

  /** A row as the naming step sees it. `identity` is the text its fresh names are derived from. */
  datatype Slot = Slot(group: Group, legacy: bool, identity: string)

  type Slots = map<string, Slot>
  type Names = map<string, string>

  /** Legacy rows keep their name, and (scope, chosen name) identifies a row. */
  ghost predicate Distinct(slots: Slots, target: Names) {
    && (forall id | id in target && id in slots && slots[id].legacy :: target[id] == slots[id].group.name)
    && (forall a, b | a in target && b in target && a in slots && b in slots && a != b
                      && slots[a].group.scope == slots[b].group.scope :: target[a] != target[b])
  }

  /** A changed name is not a name that some row of the scope had before. */
  ghost predicate Fresh(slots: Slots, target: Names) {
    forall a, b | a in target && a in slots && b in slots
                  && target[a] != slots[a].group.name && slots[a].group.scope == slots[b].group.scope ::
      target[a] != slots[b].group.name
  }

  /** Some row of the group keeps the group's name. */
  ghost predicate KeptBy(slots: Slots, target: Names, group: Group) {
    exists k | k in target && k in slots :: slots[k].group == group && target[k] == group.name
  }

  /** A complete naming. */
  ghost predicate Naming(slots: Slots, target: Names) {
    && target.Keys == slots.Keys
    && Distinct(slots, target)
    && Fresh(slots, target)
    && (forall id | id in slots :: KeptBy(slots, target, slots[id].group))
  }

  /** Two legacy rows of one group cannot both keep the name. */
  ghost predicate LegacyClash(slots: Slots) {
    exists a, b | a in slots && b in slots ::
      a != b && slots[a].legacy && slots[b].legacy && slots[a].group == slots[b].group
  }

  /** A complete naming rules out a clash: two legacy rows of one group would share their name. */
  lemma NamingExcludesClash(slots: Slots, target: Names)
    requires Naming(slots, target)
    ensures !LegacyClash(slots)
  {
  }

  /** Two rows of one scope get different names, and a new name is nobody's old one. */
  lemma NamePair(slots: Slots, names: Names, a: string, b: string)
    requires Naming(slots, names) && a in slots && b in slots && a != b && slots[a].group.scope == slots[b].group.scope
    ensures names[a] != names[b]
    ensures names[a] == slots[a].group.name || names[a] != slots[b].group.name
  {
  }

  lemma NamingKeys(slots: Slots, names: Names)
    requires Naming(slots, names)
    ensures names.Keys == slots.Keys
  {
  }

  lemma LegacyKeepsName(slots: Slots, names: Names, id: string)
    requires Naming(slots, names) && id in slots && slots[id].legacy
    ensures names[id] == slots[id].group.name
  {
  }

  /** The names in use: at least every original name of the scope and every name given out. */
  ghost predicate Tracks(slots: Slots, target: Names, used: map<Scope, set<string>>) {
    && (forall id | id in slots :: slots[id].group.scope in used && slots[id].group.name in used[slots[id].group.scope])
    && (forall id | id in target && id in slots :: target[id] in used[slots[id].group.scope])
  }

  /** What both loops keep about the rows named so far. */
  ghost predicate Progress(slots: Slots, target: Names, used: map<Scope, set<string>>) {
    target.Keys <= slots.Keys && Distinct(slots, target) && Fresh(slots, target) && Tracks(slots, target, used)
  }

  /** `a` comes before `b`: legacy rows first, then by id. */
  predicate Before(slots: Slots, a: string, b: string)
    requires a in slots && b in slots
  {
    if slots[a].legacy != slots[b].legacy then slots[a].legacy else Less(a, b)
  }

  lemma BeforeIsTotal(slots: Slots, a: string, b: string)
    requires a in slots && b in slots
    ensures a != b ==> (Before(slots, a, b) <==> !Before(slots, b, a))
    ensures !Before(slots, a, a)
  {
    LessIsTotal(a, b);
    LessIsTotal(a, a);
  }

  lemma BeforeIsTransitive(slots: Slots, a: string, b: string, c: string)
    requires a in slots && b in slots && c in slots && Before(slots, a, b) && Before(slots, b, c)
    ensures Before(slots, a, c)
  {
    if Less(a, b) && Less(b, c) {
      LessIsTransitive(a, b, c);
    }
  }

  ghost predicate InOrder(slots: Slots, ids: seq<string>) {
    && (forall id | id in ids :: id in slots)
    && (forall i, j | 0 <= i < j < |ids| && ids[i] in slots && ids[j] in slots :: Before(slots, ids[i], ids[j]))
  }

  function Place(slots: Slots, id: string, ids: seq<string>): seq<string>
    requires id in slots && forall x | x in ids :: x in slots
  {
    if ids == [] || Before(slots, id, ids[0]) then [id] + ids else [ids[0]] + Place(slots, id, ids[1..])
  }

  /** `sorted` on (is not legacy, id). */
  function LegacyFirst(slots: Slots, ids: seq<string>): (r: seq<string>)
    requires forall id | id in ids :: id in slots
    ensures forall id :: id in r ==> id in slots
  {
    if ids == [] then []
    else
      PlaceHas(slots, ids[0], LegacyFirst(slots, ids[1..]));
      Place(slots, ids[0], LegacyFirst(slots, ids[1..]))
  }

  lemma {:induction false} PlaceHas(slots: Slots, id: string, ids: seq<string>)
    requires id in slots && forall x | x in ids :: x in slots
    ensures forall x :: x in Place(slots, id, ids) <==> x == id || x in ids
  {
    if ids != [] && !Before(slots, id, ids[0]) {
      PlaceHas(slots, id, ids[1..]);
      assert ids == [ids[0]] + ids[1..];
    }
  }

  lemma {:induction false} PlaceSorts(slots: Slots, id: string, ids: seq<string>)
    requires id in slots && id !in ids && InOrder(slots, ids)
    ensures InOrder(slots, Place(slots, id, ids))
  {
    PlaceHas(slots, id, ids);
    if ids == [] {
    } else if Before(slots, id, ids[0]) {
      forall j | 0 <= j < |ids| ensures Before(slots, id, ids[j]) {
        if j > 0 {
          BeforeIsTransitive(slots, id, ids[0], ids[j]);
        }
      }
    } else {
      var rest := Place(slots, id, ids[1..]);
      PlaceSorts(slots, id, ids[1..]);
      PlaceHas(slots, id, ids[1..]);
      BeforeIsTotal(slots, id, ids[0]);
      forall j | 0 <= j < |rest| ensures Before(slots, ids[0], rest[j]) {
        assert rest[j] in rest;
        if rest[j] != id {
          var k :| 0 <= k < |ids[1..]| && ids[1..][k] == rest[j];
        }
      }
    }
  }

  lemma {:induction false} LegacyFirstSorts(slots: Slots, ids: seq<string>)
    requires forall id | id in ids :: id in slots
    requires forall i, j | 0 <= i < j < |ids| :: ids[i] != ids[j]
    ensures InOrder(slots, LegacyFirst(slots, ids)) && forall id :: id in LegacyFirst(slots, ids) <==> id in ids
  {
    if ids != [] {
      LegacyFirstSorts(slots, ids[1..]);
      assert ids[0] !in ids[1..] && ids == [ids[0]] + ids[1..];
      PlaceHas(slots, ids[0], LegacyFirst(slots, ids[1..]));
      PlaceSorts(slots, ids[0], LegacyFirst(slots, ids[1..]));
    }
  }

  /** `ids` are the rows with this scope and name, each listed once. */
  ghost predicate IsGroup(slots: Slots, key: Group, ids: seq<string>) {
    && ids != []
    && (forall id :: id in ids <==> id in slots && slots[id].group == key)
    && (forall i, j | 0 <= i < j < |ids| :: ids[i] != ids[j])
  }

  /** The first row of a group takes the group's name. */
  lemma NameKeeper(slots: Slots, target: Names, used: map<Scope, set<string>>, id: string)
    requires Progress(slots, target, used) && id in slots
    requires forall a | a in target :: slots[a].group != slots[id].group
    ensures Progress(slots, target[id := slots[id].group.name], used)
  {
  }

  /** Every later row of the group takes a name nobody uses. */
  method NameOne(c: Codec, kind: string, slots: Slots, id: string, target: Names, used: map<Scope, set<string>>)
    returns (target': Names, used': map<Scope, set<string>>)
    requires c.Faithful() && Progress(slots, target, used)
    requires id in slots && !slots[id].legacy && id !in target
    ensures id in target' && target'[id] != slots[id].group.name
    ensures target'.Keys == target.Keys + {id}
    ensures forall a | a in target :: target'[a] == target[a]
    ensures Progress(slots, target', used')
  {
    var scope := slots[id].group.scope;
    var chosen, taken, attempts := CompatKey(c, kind, slots[id].identity, used[scope]);
    used', target' := used[scope := taken], target[id := chosen];
  }

  /** Naming further rows does not take the name from a keeper. */
  lemma KeptByMonotone(slots: Slots, target: Names, more: Names, key: Group)
    requires target.Keys <= more.Keys
    requires forall id | id in target :: more[id] == target[id]
    requires KeptBy(slots, target, key)
    ensures KeptBy(slots, more, key)
  {
    var k :| k in target && k in slots && slots[k].group == key && target[k] == key.name;
    assert k in more && k in slots && slots[k].group == key && more[k] == key.name;
  }

  lemma LeaderStays(slots: Slots, target: Names, more: Names, key: Group)
    requires target.Keys <= more.Keys && forall id | id in target :: more[id] == target[id]
    requires forall id | id in slots && slots[id].group == key :: id in target
    requires LeaderKeeps(slots, target, key)
    ensures LeaderKeeps(slots, more, key)
  {
    hide Leads;
  }

  /** The rows of a group, each once, in the order in which they are named. */
  ghost predicate IsOrdered(slots: Slots, key: Group, ordered: seq<string>) {
    IsGroup(slots, key, ordered) && InOrder(slots, ordered)
  }

  lemma LegacyFirstIsOrdered(slots: Slots, key: Group, ids: seq<string>)
    requires IsGroup(slots, key, ids)
    ensures IsOrdered(slots, key, LegacyFirst(slots, ids))
  {
    var ordered := LegacyFirst(slots, ids);
    LegacyFirstSorts(slots, ids);
    assert ids[0] in ordered;
    forall i, j | 0 <= i < j < |ordered| ensures ordered[i] != ordered[j] {
      assert ordered[i] in ordered && ordered[j] in ordered;
      BeforeIsTotal(slots, ordered[i], ordered[j]);
    }
  }

  /** A legacy row after the first one means the first one is legacy as well. */
  lemma LegacyTwice(slots: Slots, key: Group, ordered: seq<string>, offset: nat)
    requires IsOrdered(slots, key, ordered) && 0 < offset < |ordered|
    requires ordered[offset] in slots && slots[ordered[offset]].legacy
    ensures LegacyClash(slots)
  {
    var a, b := ordered[0], ordered[offset];
    assert a in ordered && b in ordered;
    assert a in slots && b in slots && Before(slots, a, b);
  }

  /** The row is legacy, or its group has no legacy row and no row with a smaller id. */
  ghost predicate Leads(slots: Slots, id: string)
    requires id in slots
  {
    slots[id].legacy ||
    forall o | o in slots && o != id && slots[o].group == slots[id].group :: !slots[o].legacy && Less(id, o)
  }

  /** Of the group, exactly the row that leads keeps the name. */
  ghost predicate LeaderKeeps(slots: Slots, target: Names, key: Group) {
    forall id | id in target && id in slots && slots[id].group == key :: target[id] == key.name <==> Leads(slots, id)
  }

  lemma FirstLeads(slots: Slots, key: Group, ordered: seq<string>, i: nat)
    requires IsOrdered(slots, key, ordered) && i < |ordered| && ordered[i] in slots
    requires i > 0 ==> !slots[ordered[i]].legacy
    ensures Leads(slots, ordered[i]) <==> i == 0
  {
    var id := ordered[i];
    assert id in ordered;
    if i > 0 {
      var first := ordered[0];
      assert first in ordered && first in slots && first != id && Before(slots, first, id);
      BeforeIsTotal(slots, first, id);
    } else {
      forall o | o in slots && o != id && slots[o].group == slots[id].group ensures Before(slots, id, o) {
        var j :| 0 <= j < |ordered| && ordered[j] == o;
      }
    }
  }

  /** The first `offset` rows of the group are named as well, and the first one keeps the name. */
  ghost predicate PartOfGroup(slots: Slots, key: Group, ordered: seq<string>, offset: nat,
                              before: Names, target: Names, used: map<Scope, set<string>>)
    requires 0 < offset <= |ordered|
  {
    && Progress(slots, target, used)
    && (forall id :: id in target <==> id in before || exists i | 0 <= i < offset :: ordered[i] == id)
    && (forall id | id in before :: target[id] == before[id])
    && ordered[0] in target && target[ordered[0]] == key.name
    && (forall i | 0 < i < offset && ordered[i] in target && ordered[i] in slots ::
          target[ordered[i]] != key.name && !slots[ordered[i]].legacy)
  }

  lemma GroupStarted(slots: Slots, key: Group, ordered: seq<string>, target: Names, used: map<Scope, set<string>>)
    requires IsOrdered(slots, key, ordered) && Progress(slots, target, used)
    requires forall id | id in target :: id in slots && slots[id].group != key
    ensures PartOfGroup(slots, key, ordered, 1, target, target[ordered[0] := key.name], used)
  {
    assert ordered[0] in ordered;
    NameKeeper(slots, target, used, ordered[0]);
  }

  lemma GroupExtended(slots: Slots, key: Group, ordered: seq<string>, offset: nat, before: Names,
                      target: Names, target': Names, used': map<Scope, set<string>>)
    requires IsOrdered(slots, key, ordered) && 0 < offset < |ordered|
    requires target'.Keys == target.Keys + {ordered[offset]} && Progress(slots, target', used')
    requires ordered[offset] in slots && !slots[ordered[offset]].legacy && target'[ordered[offset]] != key.name
    requires forall a | a in target :: target'[a] == target[a]
    requires exists used :: PartOfGroup(slots, key, ordered, offset, before, target, used)
    ensures PartOfGroup(slots, key, ordered, offset + 1, before, target', used')
  {
  }

  lemma NotYetNamed(slots: Slots, key: Group, ordered: seq<string>, offset: nat, before: Names,
                    target: Names, used: map<Scope, set<string>>)
    requires IsOrdered(slots, key, ordered) && 0 < offset < |ordered|
    requires forall id | id in before :: id in slots && slots[id].group != key
    requires PartOfGroup(slots, key, ordered, offset, before, target, used)
    ensures ordered[offset] in slots && ordered[offset] !in target && Progress(slots, target, used)
    ensures slots[ordered[offset]].group == key
  {
    assert ordered[offset] in ordered;
  }

  /** The inner loop over one group. */
  method NameGroup(c: Codec, kind: string, slots: Slots, key: Group, ids: seq<string>,
                   target: Names, used: map<Scope, set<string>>)
    returns (ok: bool, target': Names, used': map<Scope, set<string>>)
    requires c.Faithful() && IsGroup(slots, key, ids) && Progress(slots, target, used)
    requires forall id | id in target :: id in slots && slots[id].group != key
    ensures !ok ==> LegacyClash(slots)
    ensures ok ==> forall id :: id in target' <==> id in target || (id in slots && slots[id].group == key)
    ensures ok ==> forall id | id in target :: target'[id] == target[id]
    ensures ok ==> Progress(slots, target', used') && KeptBy(slots, target', key) && LeaderKeeps(slots, target', key)
  {
    var ordered := LegacyFirst(slots, ids);
    LegacyFirstIsOrdered(slots, key, ids);
    GroupStarted(slots, key, ordered, target, used);
    assert ordered != [];
    hide Progress, LegacyFirst, IsGroup, IsOrdered, PartOfGroup, KeptBy, LeaderKeeps, LegacyClash, Codec.Faithful;
    ok, target', used' := true, target[ordered[0] := key.name], used;
    for offset := 1 to |ordered|
      invariant PartOfGroup(slots, key, ordered, offset, target, target', used')
    {
      NotYetNamed(slots, key, ordered, offset, target, target', used');
      if slots[ordered[offset]].legacy {
        LegacyTwice(slots, key, ordered, offset);
        ok := false;
        return;
      }
      var next, taken := NameOne(c, kind, slots, ordered[offset], target', used');
      GroupExtended(slots, key, ordered, offset, target, target', next, taken);
      target', used' := next, taken;
    }
    GroupDone(slots, key, ordered, target, target', used');
  }

  lemma GroupDone(slots: Slots, key: Group, ordered: seq<string>, before: Names,
                  target: Names, used: map<Scope, set<string>>)
    requires IsOrdered(slots, key, ordered) && ordered != []
    requires PartOfGroup(slots, key, ordered, |ordered|, before, target, used)
    ensures forall id :: id in target <==> id in before || (id in slots && slots[id].group == key)
    ensures forall id | id in before :: target[id] == before[id]
    ensures Progress(slots, target, used) && KeptBy(slots, target, key) && LeaderKeeps(slots, target, key)
  {
    assert ordered[0] in ordered;
    forall id | id in target && id in slots && slots[id].group == key
      ensures target[id] == key.name <==> Leads(slots, id)
    {
      assert id in ordered;
      var i :| 0 <= i < |ordered| && ordered[i] == id;
      FirstLeads(slots, key, ordered, i);
    }
    forall id | id in slots && slots[id].group == key ensures id in target {
      assert id in ordered;
    }
  }

  /** The dictionary of rows per group, in insertion order of its keys, after the rows in `seen`. */
  ghost predicate Grouped(slots: Slots, seen: seq<string>, keys: seq<Group>, groups: map<Group, seq<string>>) {
    && (forall k :: k in groups <==> k in keys)
    && (forall a, b | 0 <= a < b < |keys| :: keys[a] != keys[b])
    && (forall k | k in groups :: groups[k] != [])
    && (forall k, i, j | k in groups && 0 <= i < j < |groups[k]| :: groups[k][i] != groups[k][j])
    && (forall k, id | k in groups && id in groups[k] :: id in slots && id in seen && slots[id].group == k)
    && (forall id | id in seen :: id in slots && slots[id].group in groups && id in groups[slots[id].group])
  }

  /** The names per scope after the rows in `seen`. */
  ghost predicate NamesSeen(slots: Slots, seen: seq<string>, used: map<Scope, set<string>>) {
    forall id | id in seen && id in slots ::
      slots[id].group.scope in used && slots[id].group.name in used[slots[id].group.scope]
  }

  /** `groups.setdefault(key, []).append(row)` */
  method AppendRow(slots: Slots, ghost seen: seq<string>, id: string, keys: seq<Group>, groups: map<Group, seq<string>>)
    returns (keys': seq<Group>, groups': map<Group, seq<string>>)
    requires Grouped(slots, seen, keys, groups) && id in slots && id !in seen
    ensures Grouped(slots, seen + [id], keys', groups')
  {
    var key := slots[id].group;
    if key in groups {
      assert id !in groups[key];
      keys', groups' := keys, groups[key := groups[key] + [id]];
    } else {
      keys', groups' := keys + [key], groups[key := [id]];
    }
  }

  /** `used.setdefault(scope, set()).add(name)` */
  method AddName(slots: Slots, ghost seen: seq<string>, id: string, used: map<Scope, set<string>>)
    returns (used': map<Scope, set<string>>)
    requires NamesSeen(slots, seen, used) && id in slots
    ensures NamesSeen(slots, seen + [id], used')
  {
    var g := slots[id].group;
    used' := used[g.scope := (if g.scope in used then used[g.scope] else {}) + {g.name}];
  }

  /** The first pass of both prepare functions. */
  method GroupRows(slots: Slots, order: seq<string>)
    returns (keys: seq<Group>, groups: map<Group, seq<string>>, used: map<Scope, set<string>>)
    requires Enumerates(order, slots.Keys)
    ensures Grouped(slots, order, keys, groups) && Progress(slots, map[], used)
  {
    keys, groups, used := [], map[], map[];
    assert forall i | 0 <= i < |order| :: order[i] in slots.Keys && order[i] !in order[..i];
    assert Grouped(slots, order[..0], keys, groups) && NamesSeen(slots, order[..0], used);
    hide Grouped, NamesSeen;
    for i := 0 to |order|
      invariant Grouped(slots, order[..i], keys, groups) && NamesSeen(slots, order[..i], used)
    {
      assert order[..i + 1] == order[..i] + [order[i]];
      keys, groups := AppendRow(slots, order[..i], order[i], keys, groups);
      used := AddName(slots, order[..i], order[i], used);
    }
    assert order[..|order|] == order;
    StartProgress(slots, order, used);
  }

  lemma StartProgress(slots: Slots, order: seq<string>, used: map<Scope, set<string>>)
    requires Enumerates(order, slots.Keys) && NamesSeen(slots, order, used)
    ensures Progress(slots, map[], used)
  {
    assert forall id | id in slots :: id in order;
  }

  lemma GroupedIsGroup(slots: Slots, order: seq<string>, keys: seq<Group>, groups: map<Group, seq<string>>, key: Group)
    requires Enumerates(order, slots.Keys) && Grouped(slots, order, keys, groups) && key in keys
    ensures key in groups && IsGroup(slots, key, groups[key])
  {
    forall id | id in slots && slots[id].group == key ensures id in groups[key] {
      assert id in order;
    }
  }

  /** The first `g` groups are named, the others not yet. */
  ghost predicate NamedUpTo(slots: Slots, keys: seq<Group>, g: nat, target: Names, used: map<Scope, set<string>>)
    requires g <= |keys|
  {
    && Progress(slots, target, used)
    && (forall id :: id in target <==> id in slots && exists k | 0 <= k < g :: slots[id].group == keys[k])
    && (forall k | 0 <= k < g :: KeptBy(slots, target, keys[k]) && LeaderKeeps(slots, target, keys[k]))
  }

  /** One turn of the outer loop. */
  method NameNextGroup(c: Codec, kind: string, slots: Slots, ghost keys: seq<Group>, ghost g: nat, key: Group,
                       ids: seq<string>, target: Names, used: map<Scope, set<string>>)
    returns (ok: bool, target': Names, used': map<Scope, set<string>>)
    requires c.Faithful() && g < |keys| && keys[g] == key && IsGroup(slots, key, ids)
    requires forall k | 0 <= k < g :: keys[k] != key
    requires NamedUpTo(slots, keys, g, target, used)
    ensures !ok ==> LegacyClash(slots)
    ensures ok ==> NamedUpTo(slots, keys, g + 1, target', used')
  {
    hide Progress, KeptBy, LeaderKeeps, LegacyClash, Codec.Faithful;
    ok, target', used' := NameGroup(c, kind, slots, key, ids, target, used);
    if ok {
      forall k | 0 <= k < g ensures KeptBy(slots, target', keys[k]) && LeaderKeeps(slots, target', keys[k]) {
        KeptByMonotone(slots, target, target', keys[k]);
        LeaderStays(slots, target, target', keys[k]);
      }
    }
  }

  lemma NamedRow(slots: Slots, order: seq<string>, keys: seq<Group>, groups: map<Group, seq<string>>,
                 target: Names, used: map<Scope, set<string>>, id: string)
    requires Enumerates(order, slots.Keys) && Grouped(slots, order, keys, groups)
    requires NamedUpTo(slots, keys, |keys|, target, used) && id in slots
    ensures id in target && KeptBy(slots, target, slots[id].group)
    ensures target[id] == slots[id].group.name <==> Leads(slots, id)
  {
    hide Leads, KeptBy, Progress;
    assert id in order;
    assert slots[id].group in keys;
    var k :| 0 <= k < |keys| && keys[k] == slots[id].group;
    assert LeaderKeeps(slots, target, keys[k]);
  }

  lemma CompleteNaming(slots: Slots, order: seq<string>, keys: seq<Group>, groups: map<Group, seq<string>>,
                       target: Names, used: map<Scope, set<string>>)
    requires Enumerates(order, slots.Keys) && Grouped(slots, order, keys, groups)
    requires NamedUpTo(slots, keys, |keys|, target, used)
    ensures Naming(slots, target)
    ensures forall id | id in slots :: target[id] == slots[id].group.name <==> Leads(slots, id)
  {
    hide Leads, KeptBy, LeaderKeeps, Enumerates, Grouped;
    forall id | id in slots
      ensures id in target && KeptBy(slots, target, slots[id].group)
      ensures target[id] == slots[id].group.name <==> Leads(slots, id)
    {
      NamedRow(slots, order, keys, groups, target, used, id);
    }
  }

  /** Both passes of `_prepare_version_rows` and `_prepare_cache_rows` over the rows: group them,
      then name the members of each group. Fails exactly when two legacy rows share a group. */
  method AssignNames(c: Codec, kind: string, slots: Slots, order: seq<string>)
    returns (outcome: Option<Names>)
    requires c.Faithful() && Enumerates(order, slots.Keys)
    ensures outcome.None? <==> LegacyClash(slots)
    ensures outcome.Some? ==> Naming(slots, outcome.value)
    ensures outcome.Some? ==>
      forall id | id in slots :: outcome.value[id] == slots[id].group.name <==> Leads(slots, id)
  {
    var keys, groups, used := GroupRows(slots, order);
    var target: Names := map[];
    assert NamedUpTo(slots, keys, 0, target, used);
    assert forall a, b | 0 <= a < b < |keys| :: keys[a] != keys[b];
    hide Progress, Grouped, IsGroup, LegacyClash, Enumerates, Naming, NamedUpTo, Leads, Codec.Faithful;
    for g := 0 to |keys|
      invariant NamedUpTo(slots, keys, g, target, used)
    {
      GroupedIsGroup(slots, order, keys, groups, keys[g]);
      var ok;
      ok, target, used := NameNextGroup(c, kind, slots, keys, g, keys[g], groups[keys[g]], target, used);
      if !ok {
        return None;
      }
    }
    CompleteNaming(slots, order, keys, groups, target, used);
    NamingExcludesClash(slots, target);
    return Some(target);
  }
}
