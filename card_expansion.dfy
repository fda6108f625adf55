/**
 * The card-expansion rewrite applied to the game state before the Player and the
 * Mentor see it (`transform_game_state` in server/pktcgai/graph/pokemon_tcg_graph.py):
 * every `hp` member is deleted at every depth, and every object whose `str(id)` is a
 * catalog key receives that catalog entry's details (except its `hp`).
 *
 * The source recurses into the details it has just merged, so a catalog entry that
 * (directly or through other entries) contains an object with its own id never
 * finishes: Python raises `RecursionError`. The rewrite therefore carries a frame
 * budget `fuel`, and `None` stands for that error.
 */
module CardExpansion {
  import opened Wrappers
  import opened Text
  import opened Json

  /** The card catalog: card id, as text, to that card's details. */
  type Catalog = map<string, Dict>

  const HpKey := "hp"
  const IdKey := "id"

  /** Python `str(v)` for an id value; containers are not rendered (see README). */
  function IdText(v: Json): Option<string>
  {
    match v
    case JNull => Some("None")
    case JBool(b) => Some(if b then "True" else "False")
    case JInt(i) => Some(IntText(i))
    case JStr(s) => Some(s)
    case _ => None
  }

  /** The catalog key of an object: `str(obj['id'])`, when the object has an id that is a catalog key. */
  function CatalogKey(d: Dict, cat: Catalog): (r: Option<string>)
    ensures r.Some? ==> r.value in cat && HasKey(d, IdKey) && IdText(Get(d, IdKey).value) == r
    ensures HasKey(d, IdKey) && IdText(Get(d, IdKey).value).Some? && IdText(Get(d, IdKey).value).value in cat ==> r.Some?
  {
    match Get(d, IdKey)
    case None => None
    case Some(id) =>
      match IdText(id)
      case Some(k) => if k in cat then Some(k) else None
      case None => None
  }

  /** `for key, value in details.items(): if key != 'hp': obj[key] = value`. */
  function MergeDetails(d: Dict, details: Dict): Dict
    decreases |details|
  {
    if details == [] then d
    else if details[0].key == HpKey then MergeDetails(d, details[1..])
    else MergeDetails(Set(d, details[0].key, details[0].value), details[1..])
  }

  /** One object's own rewrite: delete `hp`, then merge the catalog details of its id. */
  function Expand(d: Dict, cat: Catalog): Dict
  {
    var d' := Remove(d, HpKey);
    match CatalogKey(d', cat)
    case Some(k) => MergeDetails(d', cat[k])
    case None => d'
  }

  /** `process_game_state`: the recursive rewrite, with `fuel` frames left. */
  function Process(j: Json, cat: Catalog, fuel: nat): Option<Json>
    decreases fuel, 0, 0
  {
    if fuel == 0 then None
    else
      match j
      case JArr(items) =>
        (match ProcessItems(items, cat, fuel - 1)
         case Some(rs) => Some(JArr(rs))
         case None => None)
      case JObj(members) =>
        (match ProcessMembers(Expand(members, cat), cat, fuel - 1)
         case Some(rs) => Some(JObj(rs))
         case None => None)
      case _ => Some(j)
  }

  /** `[process_game_state(item) for item in obj]`. */
  function ProcessItems(items: seq<Json>, cat: Catalog, fuel: nat): Option<seq<Json>>
    decreases fuel, 1, |items|
  {
    if items == [] then Some([])
    else
      match Process(items[0], cat, fuel)
      case None => None
      case Some(r) =>
        match ProcessItems(items[1..], cat, fuel)
        case None => None
        case Some(rs) => Some([r] + rs)
  }

  /** `for key, value in list(obj.items()): obj[key] = process_game_state(value)`. */
  function ProcessMembers(members: Dict, cat: Catalog, fuel: nat): Option<Dict>
    decreases fuel, 1, |members|
  {
    if members == [] then Some([])
    else
      match Process(members[0].value, cat, fuel)
      case None => None
      case Some(r) =>
        match ProcessMembers(members[1..], cat, fuel)
        case None => None
        case Some(rs) => Some([Member(members[0].key, r)] + rs)
  }

  /** `transform_game_state`: the rewrite of a whole game-state document. */
  function Transform(gameState: Dict, cat: Catalog, fuel: nat): Option<Json>
  {
    Process(JObj(gameState), cat, fuel)
  }

  // ---------------------------------------------------------------------------
  // Properties

  /** No object at any depth has an `hp` member. */
  predicate HpFree(j: Json)
  {
    match j
    case JArr(items) => forall i :: 0 <= i < |items| ==> HpFree(items[i])
    case JObj(members) => !HasKey(members, HpKey) && forall i :: 0 <= i < |members| ==> HpFree(members[i].value)
    case _ => true
  }

  /** Nothing for the rewrite to do: no `hp` member and no catalog id at any depth. */
  predicate Plain(j: Json, cat: Catalog)
  {
    match j
    case JArr(items) => forall i :: 0 <= i < |items| ==> Plain(items[i], cat)
    case JObj(members) =>
      && !HasKey(members, HpKey)
      && CatalogKey(members, cat).None?
      && forall i :: 0 <= i < |members| ==> Plain(members[i].value, cat)
    case _ => true
  }

  function MaxOf(s: seq<nat>): (m: nat)
    ensures forall i :: 0 <= i < |s| ==> s[i] <= m
  {
    if s == [] then 0
    else
      var m := MaxOf(s[1..]);
      assert forall i :: 1 <= i < |s| ==> s[i] == s[1..][i - 1];
      if s[0] < m then m else s[0]
  }

  /** Nesting depth of containers. */
  function Depth(j: Json): nat
  {
    match j
    case JArr(items) => 1 + MaxOf(seq(|items|, i requires 0 <= i < |items| => Depth(items[i])))
    case JObj(members) => 1 + MaxOf(seq(|members|, i requires 0 <= i < |members| => Depth(members[i].value)))
    case _ => 0
  }

  /** A list is rewritten element by element: same length, same order. */
  lemma {:induction false} ProcessItemsSpec(items: seq<Json>, cat: Catalog, fuel: nat)
    ensures ProcessItems(items, cat, fuel).Some?
        <==> forall i :: 0 <= i < |items| ==> Process(items[i], cat, fuel).Some?
    ensures ProcessItems(items, cat, fuel).Some? ==>
      var rs := ProcessItems(items, cat, fuel).value;
      |rs| == |items| && forall i :: 0 <= i < |items| ==> Process(items[i], cat, fuel) == Some(rs[i])
    decreases |items|
  {
    if items != [] {
      ProcessItemsSpec(items[1..], cat, fuel);
      assert forall i :: 1 <= i < |items| ==> items[i] == items[1..][i - 1];
    }
  }

  /** An object's members are rewritten value by value: same keys, same order. */
  lemma {:induction false} ProcessMembersSpec(members: Dict, cat: Catalog, fuel: nat)
    ensures ProcessMembers(members, cat, fuel).Some?
        <==> forall i :: 0 <= i < |members| ==> Process(members[i].value, cat, fuel).Some?
    ensures ProcessMembers(members, cat, fuel).Some? ==>
      var rs := ProcessMembers(members, cat, fuel).value;
      && |rs| == |members|
      && forall i :: 0 <= i < |members| ==>
           rs[i].key == members[i].key && Process(members[i].value, cat, fuel) == Some(rs[i].value)
    decreases |members|
  {
    if members != [] {
      ProcessMembersSpec(members[1..], cat, fuel);
      assert forall i :: 1 <= i < |members| ==> members[i] == members[1..][i - 1];
    }
  }

  /** Merging catalog details: the details' keys (but `hp`) are added, and their values win. */
  lemma {:induction false} MergeDetailsSpec(d: Dict, details: Dict)
    requires IsDict(details)
    ensures forall k :: (HasKey(MergeDetails(d, details), k)
                         <==> HasKey(d, k) || (k != HpKey && HasKey(details, k)))
    ensures forall k :: (Get(MergeDetails(d, details), k)
                         == if k != HpKey && HasKey(details, k) then Get(details, k) else Get(d, k))
    ensures IsDict(d) ==> IsDict(MergeDetails(d, details))
    decreases |details|
  {
    if details != [] {
      var m := details[0];
      assert Keys(details) == [m.key] + Keys(details[1..]);
      if m.key == HpKey {
        MergeDetailsSpec(d, details[1..]);
      } else {
        SetSpec(d, m.key, m.value);
        MergeDetailsSpec(Set(d, m.key, m.value), details[1..]);
      }
    }
  }

  /** An object's own rewrite removes `hp` and, on a catalog hit, adds the entry's details. */
  lemma ExpandSpec(d: Dict, cat: Catalog)
    requires forall k :: k in cat ==> IsDict(cat[k])
    ensures !HasKey(Expand(d, cat), HpKey)
    ensures IsDict(d) ==> IsDict(Expand(d, cat))
    ensures CatalogKey(Remove(d, HpKey), cat).None? ==> Expand(d, cat) == Remove(d, HpKey)
    ensures
      var hit := CatalogKey(Remove(d, HpKey), cat);
      && (forall k :: HasKey(Expand(d, cat), k) <==>
            k != HpKey && (HasKey(d, k) || (hit.Some? && HasKey(cat[hit.value], k))))
      && (forall k :: k != HpKey ==>
            Get(Expand(d, cat), k) == if hit.Some? && HasKey(cat[hit.value], k) then Get(cat[hit.value], k) else Get(d, k))
  {
    var d' := Remove(d, HpKey);
    RemoveSpec(d, HpKey);
    match CatalogKey(d', cat)
    case Some(k) => MergeDetailsSpec(d', cat[k]);
    case None =>
  }

  lemma ExpandDropsHp(d: Dict, cat: Catalog)
    requires forall k :: k in cat ==> IsDict(cat[k])
    ensures !HasKey(Expand(d, cat), HpKey)
  {
    ExpandSpec(d, cat);
  }

  /** After the rewrite, no object at any depth has an `hp` member. */
  lemma {:induction false} ProcessStripsHp(j: Json, cat: Catalog, fuel: nat)
    requires forall k :: k in cat ==> IsDict(cat[k])
    ensures Process(j, cat, fuel).Some? ==> HpFree(Process(j, cat, fuel).value)
    decreases fuel, 1
  {
    if fuel > 0 {
      match j
      case JArr(items) => ProcessStripsHpList(items, cat, fuel);
      case JObj(members) => ProcessStripsHpObject(members, cat, fuel);
      case _ =>
    }
  }

  lemma {:induction false} ProcessStripsHpList(items: seq<Json>, cat: Catalog, fuel: nat)
    requires forall k :: k in cat ==> IsDict(cat[k])
    requires fuel > 0
    ensures Process(JArr(items), cat, fuel).Some? ==> HpFree(Process(JArr(items), cat, fuel).value)
    decreases fuel, 0
  {
    ProcessStripsHpItems(items, cat, fuel - 1);
  }

  lemma {:induction false} ProcessStripsHpObject(members: Dict, cat: Catalog, fuel: nat)
    requires forall k :: k in cat ==> IsDict(cat[k])
    requires fuel > 0
    ensures Process(JObj(members), cat, fuel).Some? ==> HpFree(Process(JObj(members), cat, fuel).value)
    decreases fuel, 0
  {
    ExpandDropsHp(members, cat);
    ProcessStripsHpMembers(Expand(members, cat), cat, fuel - 1);
  }

  lemma {:induction false} ProcessStripsHpItems(items: seq<Json>, cat: Catalog, fuel: nat)
    requires forall k :: k in cat ==> IsDict(cat[k])
    ensures ProcessItems(items, cat, fuel).Some? ==> HpFree(JArr(ProcessItems(items, cat, fuel).value))
    decreases fuel, 2
  {
    ProcessItemsSpec(items, cat, fuel);
    if ProcessItems(items, cat, fuel).Some? {
      var rs := ProcessItems(items, cat, fuel).value;
      forall i | 0 <= i < |rs| ensures HpFree(rs[i]) {
        ProcessStripsHp(items[i], cat, fuel);
      }
    }
  }

  lemma {:induction false} ProcessStripsHpMembers(members: Dict, cat: Catalog, fuel: nat)
    requires forall k :: k in cat ==> IsDict(cat[k])
    requires !HasKey(members, HpKey)
    ensures ProcessMembers(members, cat, fuel).Some? ==> HpFree(JObj(ProcessMembers(members, cat, fuel).value))
    decreases fuel, 2
  {
    ProcessMembersSpec(members, cat, fuel);
    if ProcessMembers(members, cat, fuel).Some? {
      var rs := ProcessMembers(members, cat, fuel).value;
      assert Keys(rs) == Keys(members);
      forall i | 0 <= i < |rs| ensures HpFree(rs[i].value) {
        ProcessStripsHp(members[i].value, cat, fuel);
      }
    }
  }

  /** Looking a key up in a rewritten member list finds the rewrite of the original value. */
  lemma {:induction false} GetProcessed(members: Dict, rs: Dict, cat: Catalog, fuel: nat, k: string)
    requires |rs| == |members|
    requires forall i :: 0 <= i < |members| ==>
      rs[i].key == members[i].key && Process(members[i].value, cat, fuel) == Some(rs[i].value)
    ensures Get(rs, k).Some? <==> Get(members, k).Some?
    ensures Get(rs, k).Some? ==> Process(Get(members, k).value, cat, fuel) == Some(Get(rs, k).value)
    decreases |members|
  {
    if members != [] && members[0].key != k {
      GetProcessed(members[1..], rs[1..], cat, fuel, k);
    }
  }

  /**
   * The rewrite of an object: `hp` is gone; on a catalog hit every non-`hp` detail of
   * the entry is present (overwriting a same-named member) and rewritten in turn; every
   * other member keeps its key and has its value rewritten.
   */
  lemma ProcessObject(d: Dict, cat: Catalog, fuel: nat)
    requires forall k :: k in cat ==> IsDict(cat[k])
    requires Process(JObj(d), cat, fuel).Some?
    ensures Process(JObj(d), cat, fuel).value.JObj?
    ensures
      var rs := Process(JObj(d), cat, fuel).value.members;
      var hit := CatalogKey(Remove(d, HpKey), cat);
      && !HasKey(rs, HpKey)
      && (forall k :: HasKey(rs, k) <==>
            k != HpKey && (HasKey(d, k) || (hit.Some? && HasKey(cat[hit.value], k))))
      && (forall k :: k != HpKey && HasKey(rs, k) ==>
            var source := if hit.Some? && HasKey(cat[hit.value], k) then Get(cat[hit.value], k) else Get(d, k);
            source.Some? && Process(source.value, cat, fuel - 1) == Some(Get(rs, k).value))
  {
    var merged := Expand(d, cat);
    ProcessObjectStep(d, merged, cat, fuel);
    ExpandSpec(d, cat);
    ProcessMembersSpec(merged, cat, fuel - 1);
    var rs := ProcessMembers(merged, cat, fuel - 1).value;
    assert Keys(rs) == Keys(merged);
    forall k ensures Get(rs, k).Some? ==> Process(Get(merged, k).value, cat, fuel - 1) == Some(Get(rs, k).value) {
      GetProcessed(merged, rs, cat, fuel - 1, k);
    }
  }

  /** A list keeps its length and order; each element is rewritten on its own. */
  lemma ProcessList(items: seq<Json>, cat: Catalog, fuel: nat)
    requires Process(JArr(items), cat, fuel).Some?
    ensures Process(JArr(items), cat, fuel).value.JArr?
    ensures
      var rs := Process(JArr(items), cat, fuel).value.items;
      |rs| == |items| && forall i :: 0 <= i < |items| ==> Process(items[i], cat, fuel - 1) == Some(rs[i])
  {
    ProcessItemsSpec(items, cat, fuel - 1);
  }

  /** Scalars (`"40 cards"`, null, numbers, booleans) pass through unchanged. */
  lemma ProcessScalar(j: Json, cat: Catalog, fuel: nat)
    requires !j.JArr? && !j.JObj? && fuel > 0
    ensures Process(j, cat, fuel) == Some(j)
  {
  }

  /**
   * The rewrite changes nothing in a document that has no `hp` member and no catalog
   * id, given one frame per level of nesting.
   */
  lemma {:induction false} ProcessIdentity(j: Json, cat: Catalog, fuel: nat)
    requires Plain(j, cat) && fuel > Depth(j)
    ensures Process(j, cat, fuel) == Some(j)
    decreases fuel, 0
  {
    ChildDepths(j);
    match j
    case JArr(items) =>
      ProcessIdentityItems(items, cat, fuel - 1);
    case JObj(members) =>
      ProcessIdentityMembers(members, cat, fuel - 1);
      ExpandPlain(members, cat);
      ProcessObjectStep(members, members, cat, fuel);
    case _ =>
  }

  /** A container is deeper than each of its elements. */
  lemma ChildDepths(j: Json)
    ensures j.JArr? ==> forall i :: 0 <= i < |j.items| ==> Depth(j.items[i]) < Depth(j)
    ensures j.JObj? ==> forall i :: 0 <= i < |j.members| ==> Depth(j.members[i].value) < Depth(j)
  {
    match j
    case JArr(items) =>
      var depths := seq(|items|, i requires 0 <= i < |items| => Depth(items[i]));
      forall i | 0 <= i < |items| ensures Depth(items[i]) < Depth(j) {
        assert depths[i] <= MaxOf(depths);
      }
    case JObj(members) =>
      var depths := seq(|members|, i requires 0 <= i < |members| => Depth(members[i].value));
      forall i | 0 <= i < |members| ensures Depth(members[i].value) < Depth(j) {
        assert depths[i] <= MaxOf(depths);
      }
    case _ =>
  }

  /** An object without `hp` and without a catalog id is its own rewrite. */
  lemma ExpandPlain(d: Dict, cat: Catalog)
    requires !HasKey(d, HpKey) && CatalogKey(d, cat).None?
    ensures Expand(d, cat) == d
  {
    RemoveAbsent(d, HpKey);
  }

  /** One frame of the rewrite of an object: its own rewrite, then its members'. */
  lemma ProcessObjectStep(members: Dict, merged: Dict, cat: Catalog, fuel: nat)
    requires fuel > 0 && Expand(members, cat) == merged
    ensures Process(JObj(members), cat, fuel).Some? <==> ProcessMembers(merged, cat, fuel - 1).Some?
    ensures ProcessMembers(merged, cat, fuel - 1).Some? ==>
      Process(JObj(members), cat, fuel) == Some(JObj(ProcessMembers(merged, cat, fuel - 1).value))
  {
  }

  lemma {:induction false} ProcessIdentityItems(items: seq<Json>, cat: Catalog, fuel: nat)
    requires forall i :: 0 <= i < |items| ==> Plain(items[i], cat) && Depth(items[i]) < fuel
    ensures ProcessItems(items, cat, fuel) == Some(items)
    decreases fuel, 1
  {
    forall i | 0 <= i < |items| ensures Process(items[i], cat, fuel) == Some(items[i]) {
      ProcessIdentity(items[i], cat, fuel);
    }
    ProcessItemsSpec(items, cat, fuel);
    assert ProcessItems(items, cat, fuel).value == items;
  }

  lemma {:induction false} ProcessIdentityMembers(members: Dict, cat: Catalog, fuel: nat)
    requires forall i :: 0 <= i < |members| ==> Plain(members[i].value, cat) && Depth(members[i].value) < fuel
    ensures ProcessMembers(members, cat, fuel) == Some(members)
    decreases fuel, 1
  {
    forall i | 0 <= i < |members| ensures Process(members[i].value, cat, fuel) == Some(members[i].value) {
      ProcessIdentity(members[i].value, cat, fuel);
    }
    ProcessMembersSpec(members, cat, fuel);
    var rs := ProcessMembers(members, cat, fuel).value;
    assert forall i :: 0 <= i < |members| ==> rs[i] == members[i];
    assert rs == members;
  }
}
