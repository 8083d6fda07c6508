/** The generic keyed record store: one array of `{ id }` records per
    storage key, read and rewritten whole on every operation.

    The persistent key-value storage is a map from storage key to what is
    stored there. A key that is absent and data that does not parse both
    read as the empty collection. Every operation takes the storage and
    returns the new storage next to its answer. */
module BaseStorage {
  import opened Wrappers
  import opened Seqs
  import opened Values

  /** What one storage key holds: a parsed array, or text that fails to parse. */
  datatype Slot = Saved(items: seq<Record>) | Unparsable

  type Db = map<string, Slot>

  /** The storage after an operation together with the operation's answer. */
  datatype Step<T> = Step(db: Db, out: T)

  /** The outcome of calling a caller-supplied predicate on a record; the
      predicate may throw. */
  datatype Verdict = Match | NoMatch | Raises

  /** All storage keys other than `key` are untouched. */
  predicate SameElsewhere(db: Db, db': Db, key: string) {
    db' - {key} == db - {key}
  }

  function IdIs(id: string): Record -> bool {
    (r: Record) => Id(r) == id
  }

  function IdIsNot(id: string): Record -> bool {
    (r: Record) => Id(r) != id
  }

  function Holds(p: Record -> Verdict): Record -> bool {
    (r: Record) => p(r) == Match
  }

  /** Some record of `items` carries `id`. */
  predicate HasId(items: seq<Record>, id: string) {
    exists i :: 0 <= i < |items| && Id(items[i]) == id
  }

  /** `getAll`: the stored array; empty when the key is absent or its data
      does not parse (the error is swallowed). */
  function GetAll(db: Db, key: string): (items: seq<Record>)
    ensures key !in db ==> items == []
    ensures key in db && db[key].Unparsable? ==> items == []
  {
    if key in db && db[key].Saved? then db[key].items else []
  }

  /** `saveAll`: overwrite the array stored under `key`. */
  function SaveAll(db: Db, key: string, items: seq<Record>): (db': Db)
    ensures GetAll(db', key) == items
    ensures SameElsewhere(db, db', key)
  {
    db[key := Saved(items)]
  }

  /** `getById`: the first record whose id equals `id`, if any. */
  function GetById(db: Db, key: string, id: string): (r: Option<Record>)
    ensures r.None? <==> !HasId(GetAll(db, key), id)
    ensures r.Some? ==> Id(r.value) == id
    ensures r.Some? ==> exists i :: 0 <= i < |GetAll(db, key)| && GetAll(db, key)[i] == r.value
                          && forall j :: 0 <= j < i ==> Id(GetAll(db, key)[j]) != id
  {
    Find(GetAll(db, key), IdIs(id))
  }

  /** `exists`: whether some record carries `id`. */
  function Exists(db: Db, key: string, id: string): (b: bool)
    ensures b <==> HasId(GetAll(db, key), id)
  {
    GetById(db, key, id).Some?
  }

  /** The `id` an item may carry: a string or `undefined` (`id?: string`). */
  predicate IdField(item: map<string, Value>) {
    "id" in item ==> item["id"].VStr? || item["id"].VUndefined?
  }

  /** The item carries a non-empty string id, which `item.id || ...` keeps. */
  predicate SuppliesId(item: map<string, Value>) {
    "id" in item && item["id"].VStr? && item["id"].s != ""
  }

  /** The id `create` gives a new record: the supplied one unless it is
      missing, `undefined` or empty, otherwise the freshly generated one. */
  function ChosenId(item: map<string, Value>, freshId: string): string {
    if SuppliesId(item) then item["id"].s else freshId
  }

  /** `create`: append `{ ...item, id: item.id || generateId() }`. The
      generated id is the parameter `freshId`. */
  function Create(db: Db, key: string, item: map<string, Value>, freshId: string): (s: Step<Record>)
    requires IdField(item)
    ensures GetAll(s.db, key) == GetAll(db, key) + [s.out]
    ensures SameElsewhere(db, s.db, key)
    ensures SuppliesId(item) ==> Id(s.out) == item["id"].s
    ensures !SuppliesId(item) ==> Id(s.out) == freshId
    ensures s.out.Keys == item.Keys + {"id"}
    ensures forall k :: k in item && k != "id" ==> s.out[k] == item[k]
  {
    var r: Record := item["id" := VStr(ChosenId(item, freshId))];
    Step(SaveAll(db, key, GetAll(db, key) + [r]), r)
  }

  /** `after` is `before` with its record at `i`, the first one carrying
      `id`, replaced by `merged`: that record with `updates` laid over it
      (`{ ...record, ...updates }`). */
  ghost predicate MergedAt(before: seq<Record>, after: seq<Record>, i: int, id: string,
                           updates: map<string, Value>, merged: Record)
  {
    && 0 <= i < |before| && Id(before[i]) == id
    && (forall j :: 0 <= j < i ==> Id(before[j]) != id)
    && merged.Keys == before[i].Keys + updates.Keys
    && (forall k :: k in updates ==> merged[k] == updates[k])
    && (forall k :: k in before[i] && k !in updates ==> merged[k] == before[i][k])
    && after == before[i := merged]
  }

  /** `update`: shallow-merge `updates` into the first record carrying `id`
      and store the result at the same position; `null` when there is none. */
  function Update(db: Db, key: string, id: string, updates: map<string, Value>): (s: Step<Option<Record>>)
    requires "id" !in updates
    ensures s.out.None? <==> !HasId(GetAll(db, key), id)
    ensures s.out.None? ==> s.db == db
    ensures s.out.Some? ==> SameElsewhere(db, s.db, key)
    ensures s.out.Some? ==> Id(s.out.value) == id && |GetAll(s.db, key)| == |GetAll(db, key)|
    ensures s.out.Some? ==> forall k :: k in updates ==> k in s.out.value && s.out.value[k] == updates[k]
    ensures s.out.Some? ==> exists i :: MergedAt(GetAll(db, key), GetAll(s.db, key), i, id, updates, s.out.value)
  {
    var items := GetAll(db, key);
    match FindFirst(items, IdIs(id))
    case None => Step(db, None)
    case Some(i) =>
      var merged: Record := items[i] + updates;
      assert MergedAt(items, items[i := merged], i, id, updates, merged);
      Step(SaveAll(db, key, items[i := merged]), Some(merged))
  }

  /** `after` is `before` with the records carrying `id` removed: none of
      them is left, and every other record stays, in order and as often
      as it occurred. */
  ghost predicate RemovedId(before: seq<Record>, after: seq<Record>, id: string) {
    && !HasId(after, id)
    && IsSubsequence(after, before)
    && forall x :: multiset(after)[x] == if Id(x) != id then multiset(before)[x] else 0
  }

  /** `delete`: drop every record carrying `id`; report whether any was
      dropped, and write nothing when none was. */
  function Delete(db: Db, key: string, id: string): (s: Step<bool>)
    ensures s.out <==> HasId(GetAll(db, key), id)
    ensures !s.out ==> s.db == db
    ensures s.out ==> SameElsewhere(db, s.db, key)
    ensures s.out ==> RemovedId(GetAll(db, key), GetAll(s.db, key), id)
  {
    var items := GetAll(db, key);
    var kept := Filter(items, IdIsNot(id));
    FilterRemovesId(items, id);
    if |items| == |kept| then Step(db, false)
    else Step(SaveAll(db, key, kept), true)
  }

  /** Filtering out an id removes exactly the records carrying it, and
      shortens the list exactly when one was there. */
  lemma FilterRemovesId(items: seq<Record>, id: string)
    ensures RemovedId(items, Filter(items, IdIsNot(id)), id)
    ensures |Filter(items, IdIsNot(id))| == |items| <==> !HasId(items, id)
  {
    var kept := Filter(items, IdIsNot(id));
    FilterIsSubsequence(items, IdIsNot(id));
    FilterCounts(items, IdIsNot(id));
    assert !HasId(kept, id) by {
      assert forall i :: 0 <= i < |kept| ==> kept[i] in kept;
    }
    assert |kept| == |items| <==> !HasId(items, id) by {
      FilterKeepsAll(items, IdIsNot(id));
    }
  }

  /** When no record carries `id`, the unchanged list has it removed. */
  lemma NothingToRemove(items: seq<Record>, id: string)
    requires !HasId(items, id)
    ensures RemovedId(items, items, id)
  {
    SubsequenceRefl(items);
    assert forall x :: x in items ==> Id(x) != id;
  }

  /** `clear`: remove the storage key altogether. */
  function Clear(db: Db, key: string): (db': Db)
    ensures key !in db'
    ensures GetAll(db', key) == []
    ensures SameElsewhere(db, db', key)
  {
    db - {key}
  }

  /** Array `filter` with a predicate that may throw: `None` if any call
      throws (every element is visited), otherwise the kept records. */
  function FilterOrThrow(xs: seq<Record>, p: Record -> Verdict): (r: Option<seq<Record>>)
    ensures r.None? <==> exists i :: 0 <= i < |xs| && p(xs[i]) == Raises
    ensures r.Some? ==> r.value == Filter(xs, Holds(p))
    decreases |xs|
  {
    if |xs| == 0 then Some([])
    else
      var v := p(xs[0]);
      match FilterOrThrow(xs[1..], p)
      case None => None
      case Some(rest) =>
        if v == Raises then None
        else if v == Match then Some([xs[0]] + rest)
        else Some(rest)
  }

  /** Some call before position `i` throws. */
  predicate RaisesBefore(xs: seq<Record>, p: Record -> Verdict, i: int) {
    exists j :: 0 <= j < i && j < |xs| && p(xs[j]) == Raises
  }

  /** Array `find` with a predicate that may throw: `None` when nothing
      matches or a call throws before the first match. */
  function FindOrThrow(xs: seq<Record>, p: Record -> Verdict): (r: Option<Record>)
    ensures r.Some? ==> exists i :: 0 <= i < |xs| && xs[i] == r.value && p(xs[i]) == Match
                          && forall j :: 0 <= j < i ==> p(xs[j]) == NoMatch
    ensures r.None? <==> forall i :: 0 <= i < |xs| && p(xs[i]) == Match ==> RaisesBefore(xs, p, i)
    decreases |xs|
  {
    if |xs| == 0 then None
    else
      var v := p(xs[0]);
      if v == Match then Some(xs[0])
      else if v == Raises then None
      else
        var r := FindOrThrow(xs[1..], p);
        assert forall i :: 1 <= i <= |xs| ==> (RaisesBefore(xs, p, i) <==> RaisesBefore(xs[1..], p, i - 1));
        r
  }

  /** `findBy`: the records the predicate keeps; empty if the predicate
      throws on any record. */
  function FindBy(db: Db, key: string, p: Record -> Verdict): (r: seq<Record>)
    ensures (exists i :: 0 <= i < |GetAll(db, key)| && p(GetAll(db, key)[i]) == Raises) ==> r == []
    ensures (forall i :: 0 <= i < |GetAll(db, key)| ==> p(GetAll(db, key)[i]) != Raises) ==>
              r == Filter(GetAll(db, key), Holds(p))
    ensures IsSubsequence(r, GetAll(db, key))
  {
    FilterIsSubsequence(GetAll(db, key), Holds(p));
    FilterOrThrow(GetAll(db, key), p).GetOr([])
  }

  /** `findOneBy`: the first record the predicate accepts, or `null` when
      none does or the predicate throws before reaching it (the exception
      is swallowed). */
  function FindOneBy(db: Db, key: string, p: Record -> Verdict): (r: Option<Record>)
    ensures r.Some? ==> exists i :: 0 <= i < |GetAll(db, key)| && GetAll(db, key)[i] == r.value
                          && p(r.value) == Match && forall j :: 0 <= j < i ==> p(GetAll(db, key)[j]) == NoMatch
    ensures r.None? <==> forall i :: 0 <= i < |GetAll(db, key)| && p(GetAll(db, key)[i]) == Match ==>
                           RaisesBefore(GetAll(db, key), p, i)
    ensures (forall i :: 0 <= i < |GetAll(db, key)| ==> p(GetAll(db, key)[i]) != Raises) ==>
              r == Find(GetAll(db, key), Holds(p))
  {
    var items := GetAll(db, key);
    var r := FindOrThrow(items, p);
    if forall i :: 0 <= i < |items| ==> p(items[i]) != Raises then
      FindNoRaise(items, p);
      r
    else r
  }

  /** With a predicate that never throws, `FindOrThrow` is plain `find`. */
  lemma {:induction false} FindNoRaise(xs: seq<Record>, p: Record -> Verdict)
    requires forall i :: 0 <= i < |xs| ==> p(xs[i]) != Raises
    ensures FindOrThrow(xs, p) == Find(xs, Holds(p))
    decreases |xs|
  {
    if |xs| > 0 && p(xs[0]) != Match {
      FindNoRaise(xs[1..], p);
      assert FindFirst(xs, Holds(p)) == match FindFirst(xs[1..], Holds(p))
        case None => None
        case Some(k) => Some(k + 1);
    }
  }

  /** `count`: the number of stored records. */
  function Count(db: Db, key: string): (n: nat)
    ensures n == 0 <==> GetAll(db, key) == []
  {
    |GetAll(db, key)|
  }

  /** `initializeWithDefaults`: store `defaults` when the collection reads
      as empty, otherwise change nothing. */
  function InitializeWithDefaults(db: Db, key: string, defaults: seq<Record>): (db': Db)
    ensures GetAll(db, key) == [] ==> GetAll(db', key) == defaults
    ensures GetAll(db, key) != [] ==> db' == db
    ensures SameElsewhere(db, db', key)
  {
    if |GetAll(db, key)| == 0 then SaveAll(db, key, defaults) else db
  }

  /** A created record can be found by its id, provided no earlier record
      already carried that id. */
  lemma CreateThenGetById(db: Db, key: string, item: map<string, Value>, freshId: string)
    requires IdField(item)
    requires !HasId(GetAll(db, key), ChosenId(item, freshId))
    ensures var s := Create(db, key, item, freshId);
            GetById(s.db, key, Id(s.out)) == Some(s.out)
  {
    var s := Create(db, key, item, freshId);
    var items := GetAll(s.db, key);
    assert items[|items| - 1] == s.out;
    assert forall j :: 0 <= j < |items| - 1 ==> items[j] == GetAll(db, key)[j];
  }

  /** After `clear` there is nothing to count. */
  lemma ClearThenCount(db: Db, key: string)
    ensures Count(Clear(db, key), key) == 0
    ensures GetAll(Clear(db, key), key) == []
  {
  }

  /** Seeding twice is seeding once. */
  lemma InitializeIdempotent(db: Db, key: string, defaults: seq<Record>)
    ensures InitializeWithDefaults(InitializeWithDefaults(db, key, defaults), key, defaults)
         == InitializeWithDefaults(db, key, defaults)
  {
  }

  /** `exists` agrees with `getById`. */
  lemma ExistsIffGetById(db: Db, key: string, id: string)
    ensures Exists(db, key, id) <==> GetById(db, key, id).Some?
  {
  }
}
