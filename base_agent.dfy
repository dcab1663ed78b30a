/**
 * The data side of the base NPC agent (src/agents/NPC_Base_Agent.py): the inventory counter map
 * with its belief mirroring, and the layout of the NPC's data files under the data root.
 */
module BaseAgent {
  import opened Wrappers

  // ---------------------------------------------------------------------------------------------
  // Inventory
  // ---------------------------------------------------------------------------------------------

  /** `KeyError(obj)` raised by `items[obj] -= count` when `obj` is absent. */
  datatype InventoryError = KeyError(obj: string)

  /** `count(obj)`: `items.get(obj, 0)`. */
  function CountOf(items: map<string, int>, obj: string): int
  {
    if obj in items then items[obj] else 0
  }

  /** Every stored count is positive: no zero or negative entry. */
  predicate AllPositive(items: map<string, int>)
  {
    forall o :: o in items ==> items[o] > 0
  }

  /** `add(obj, count)`: raises the count of `obj` by `count` and stores it, even when it is not positive. */
  function AddItems(items: map<string, int>, obj: string, count: int): (r: map<string, int>)
    ensures obj in r && CountOf(r, obj) == CountOf(items, obj) + count
    ensures forall o :: o != obj ==> CountOf(r, o) == CountOf(items, o)
    ensures r.Keys == items.Keys + {obj}
  {
    items[obj := CountOf(items, obj) + count]
  }

  /**
   * `subtract(obj, count)`: with enough stock the count drops by `count` and an entry reaching zero
   * or less is deleted; with too little stock nothing changes; an absent `obj` with `count <= 0`
   * passes the guard and then raises `KeyError`.
   */
  function SubtractItems(items: map<string, int>, obj: string, count: int): (r: Result<map<string, int>, InventoryError>)
    ensures r.Failure? <==> obj !in items && count <= 0
    ensures r.Failure? ==> r.error == KeyError(obj)
    ensures r.Success? && CountOf(items, obj) < count ==> r.value == items
    ensures r.Success? && CountOf(items, obj) >= count ==>
      && CountOf(r.value, obj) == CountOf(items, obj) - count
      && (obj in r.value ==> r.value[obj] > 0)
      && r.value.Keys <= items.Keys
    ensures r.Success? ==> forall o :: o != obj ==> CountOf(r.value, o) == CountOf(items, o)
  {
    if CountOf(items, obj) >= count then
      if obj !in items then Failure(KeyError(obj))
      else
        var n := items[obj] - count;
        if n <= 0 then Success(items - {obj}) else Success(items[obj := n])
    else Success(items)
  }

  /** Adding a positive count keeps every entry positive. */
  lemma AddKeepsPositive(items: map<string, int>, obj: string, count: int)
    requires AllPositive(items) && count > 0
    ensures AllPositive(AddItems(items, obj, count))
  {
    var r := AddItems(items, obj, count);
    forall o | o in r ensures r[o] > 0 {
      if o != obj {
        assert CountOf(r, o) == CountOf(items, o);
      }
    }
  }

  /** A successful subtract keeps every entry positive, whatever its count. */
  lemma SubtractKeepsPositive(items: map<string, int>, obj: string, count: int)
    requires AllPositive(items) && SubtractItems(items, obj, count).Success?
    ensures AllPositive(SubtractItems(items, obj, count).value)
  {
    var r := SubtractItems(items, obj, count).value;
    forall o | o in r ensures r[o] > 0 {
      if o != obj {
        assert CountOf(r, o) == CountOf(items, o);
      }
    }
  }

  /** Subtracting what was just added restores the inventory, unless the entry was already non-positive. */
  lemma AddThenSubtractRestores(items: map<string, int>, obj: string, count: int)
    requires obj in items ==> items[obj] > 0
    ensures SubtractItems(AddItems(items, obj, count), obj, count) == Success(items)
  {
    var added := AddItems(items, obj, count);
    var r := SubtractItems(added, obj, count);
    assert r.Success?;
    if obj in items {
      assert r.value == added[obj := items[obj]];
      assert added[obj := items[obj]] == items;
    } else {
      assert r.value == added - {obj};
      assert added - {obj} == items;
    }
  }

  /** The failing case of the guard: even `count == 0` on an absent item raises. */
  lemma SubtractZeroOfAbsentRaises(items: map<string, int>, obj: string)
    requires obj !in items
    ensures SubtractItems(items, obj, 0) == Failure(KeyError(obj))
  {
  }

  /** A belief update sent to the BDI interface. */
  datatype BeliefCall = SetHas(obj: string, cnt: int) | RemoveHas(obj: string)

  /** `_update_belief(obj)`: `has(obj, cnt)` while the count is positive, otherwise its removal. */
  function BeliefFor(items: map<string, int>, obj: string): (b: BeliefCall)
    ensures b.obj == obj
    ensures b.SetHas? <==> CountOf(items, obj) > 0
    ensures b.SetHas? ==> b.cnt == CountOf(items, obj)
  {
    var cnt := CountOf(items, obj);
    if cnt > 0 then SetHas(obj, cnt) else RemoveHas(obj)
  }

  /** The belief calls one update makes: none without a BDI interface. */
  function BeliefCalls(hasBdi: bool, items: map<string, int>, obj: string): seq<BeliefCall>
  {
    if hasBdi then [BeliefFor(items, obj)] else []
  }

  /** With a positive inventory, the mirrored belief removes `has` exactly when the item is gone. */
  lemma BeliefMirrorsPresence(items: map<string, int>, obj: string)
    requires AllPositive(items)
    ensures BeliefFor(items, obj).RemoveHas? <==> obj !in items
    ensures obj in items ==> BeliefFor(items, obj) == SetHas(obj, items[obj])
  {
  }

  class Inventory {
    var items: map<string, int>
    /** Whether a (truthy) BDI interface is attached. */
    const hasBdi: bool
    /** The belief calls made so far, oldest first. */
    var beliefs: seq<BeliefCall>

    constructor (hasBdi: bool)
      ensures items == map[] && this.hasBdi == hasBdi && beliefs == []
    {
      items := map[];
      this.hasBdi := hasBdi;
      beliefs := [];
    }

    method Add(obj: string, count: int)
      modifies this
      ensures items == AddItems(old(items), obj, count)
      ensures beliefs == old(beliefs) + BeliefCalls(hasBdi, items, obj)
    {
      var have := Count(obj);
      items := items[obj := have + count];
      UpdateBelief(obj);
    }

    /** Raises (returns `Fail`) with nothing changed and no belief call; otherwise updates and mirrors. */
    method Subtract(obj: string, count: int) returns (r: Outcome<InventoryError>)
      modifies this
      ensures SubtractItems(old(items), obj, count).Failure? ==>
        r == Fail(SubtractItems(old(items), obj, count).error) && items == old(items) && beliefs == old(beliefs)
      ensures SubtractItems(old(items), obj, count).Success? ==>
        && r == Pass
        && items == SubtractItems(old(items), obj, count).value
        && beliefs == old(beliefs) + BeliefCalls(hasBdi, items, obj)
    {
      var have := Count(obj);
      if have >= count {
        if obj !in items {
          return Fail(KeyError(obj));
        }
        items := items[obj := items[obj] - count];
        if items[obj] <= 0 {
          items := items - {obj};
        }
      }
      UpdateBelief(obj);
      r := Pass;
    }

    method Count(obj: string) returns (n: int)
      ensures n == CountOf(items, obj)
    {
      n := if obj in items then items[obj] else 0;
    }

    method UpdateBelief(obj: string)
      modifies this`beliefs
      ensures beliefs == old(beliefs) + BeliefCalls(hasBdi, items, obj)
    {
      if !hasBdi {
        return;
      }
      var cnt := Count(obj);
      if cnt > 0 {
        beliefs := beliefs + [SetHas(obj, cnt)];
      } else {
        beliefs := beliefs + [RemoveHas(obj)];
      }
    }
  }

  // ---------------------------------------------------------------------------------------------
  // NPCPaths
  // ---------------------------------------------------------------------------------------------

  /** A filesystem path as its components; `Join` is the `/` operator. */
  datatype Path = Path(parts: seq<string>)

  function Join(p: Path, name: string): Path
  {
    Path(p.parts + [name])
  }

  /** `NPCPaths(data_root, npc_name)`: a frozen record; every path below is a read-only property of it. */
  datatype NPCPaths = NPCPaths(dataRoot: Path, npcName: string)

  function ProfilesDir(p: NPCPaths): Path { Join(p.dataRoot, "npc_profiles") }
  function MemoryDir(p: NPCPaths): Path { Join(p.dataRoot, "memory") }
  function RelationshipsDir(p: NPCPaths): Path { Join(p.dataRoot, "relationships") }
  function PrimitivesBase(p: NPCPaths): Path { Join(p.dataRoot, "primitives_base") }
  function IntentionsDir(p: NPCPaths): Path { Join(p.dataRoot, "npc_intentions") }
  function WorldHistoriesDir(p: NPCPaths): Path { Join(p.dataRoot, "world_histories") }

  function Profile(p: NPCPaths): Path { Join(ProfilesDir(p), p.npcName + ".json") }
  function DynamicMemory(p: NPCPaths): Path { Join(MemoryDir(p), p.npcName + "_dynamic.json") }
  function Relationships(p: NPCPaths): Path { Join(RelationshipsDir(p), p.npcName + ".json") }
  function IntentionsAsl(p: NPCPaths): Path { Join(IntentionsDir(p), p.npcName + ".asl") }
  function IntentionsJson(p: NPCPaths): Path { Join(IntentionsDir(p), p.npcName + ".json") }
  function CommonHistoryJson(p: NPCPaths): Path { Join(WorldHistoriesDir(p), "common_history.json") }
  function BaseAsl(p: NPCPaths): Path { Join(PrimitivesBase(p), "primitivas.asl") }
  function BaseJson(p: NPCPaths): Path { Join(PrimitivesBase(p), "primitivas.json") }

  /** The profile is `data_root/npc_profiles/<name>.json`; the dynamic memory `data_root/memory/<name>_dynamic.json`. */
  lemma ProfileAndMemoryLayout(p: NPCPaths)
    ensures Profile(p).parts == p.dataRoot.parts + ["npc_profiles", p.npcName + ".json"]
    ensures DynamicMemory(p).parts == p.dataRoot.parts + ["memory", p.npcName + "_dynamic.json"]
  {
  }

  /** The intention files share a directory and differ only in the extension of their last component. */
  lemma IntentionFilesShareDirectory(p: NPCPaths)
    ensures var a, j := IntentionsAsl(p).parts, IntentionsJson(p).parts;
      |a| == |j| && a[..|a| - 1] == j[..|j| - 1] && a != j
    ensures IntentionsAsl(p).parts[|IntentionsAsl(p).parts| - 1] == p.npcName + ".asl"
    ensures IntentionsJson(p).parts[|IntentionsJson(p).parts| - 1] == p.npcName + ".json"
  {
    var a, j := IntentionsAsl(p).parts, IntentionsJson(p).parts;
    assert a[..|a| - 1] == IntentionsDir(p).parts;
    assert j[..|j| - 1] == IntentionsDir(p).parts;
    assert |a[|a| - 1]| != |j[|j| - 1]|;
  }

  /** The shared files do not depend on the NPC's name. */
  lemma SharedFilesIgnoreName(p: NPCPaths, q: NPCPaths)
    requires p.dataRoot == q.dataRoot
    ensures CommonHistoryJson(p) == CommonHistoryJson(q)
    ensures BaseAsl(p) == BaseAsl(q) && BaseJson(p) == BaseJson(q)
  {
  }

  /** Two NPCs with different names under one root never share a per-NPC file. */
  lemma PerNpcFilesDistinct(p: NPCPaths, q: NPCPaths)
    requires p.dataRoot == q.dataRoot && p.npcName != q.npcName
    ensures Profile(p) != Profile(q) && DynamicMemory(p) != DynamicMemory(q)
    ensures Relationships(p) != Relationships(q)
    ensures IntentionsAsl(p) != IntentionsAsl(q) && IntentionsJson(p) != IntentionsJson(q)
  {
    var n := |p.dataRoot.parts|;
    SuffixCancels(p.npcName, q.npcName, ".json");
    SuffixCancels(p.npcName, q.npcName, "_dynamic.json");
    SuffixCancels(p.npcName, q.npcName, ".asl");
    assert Profile(p).parts[n + 1] == p.npcName + ".json";
    assert Profile(q).parts[n + 1] == q.npcName + ".json";
    assert DynamicMemory(p).parts[n + 1] == p.npcName + "_dynamic.json";
    assert DynamicMemory(q).parts[n + 1] == q.npcName + "_dynamic.json";
    assert Relationships(p).parts[n + 1] == p.npcName + ".json";
    assert Relationships(q).parts[n + 1] == q.npcName + ".json";
    assert IntentionsAsl(p).parts[n + 1] == p.npcName + ".asl";
    assert IntentionsAsl(q).parts[n + 1] == q.npcName + ".asl";
    assert IntentionsJson(p).parts[n + 1] == p.npcName + ".json";
    assert IntentionsJson(q).parts[n + 1] == q.npcName + ".json";
  }

  /** Appending the same suffix keeps different names different. */
  lemma SuffixCancels(a: string, b: string, suffix: string)
    requires a != b
    ensures a + suffix != b + suffix
  {
    if |a| == |b| {
      var i :| 0 <= i < |a| && a[i] != b[i];
      assert (a + suffix)[i] == a[i] && (b + suffix)[i] == b[i];
    }
  }
}
