/**
  The registry of drops as a value: for each source (an outcrop kind or a creature
  species) the ordered list of its drop entries. The registry classes of the model
  expose their contents through this view, and every property of the registry
  operations is proved here, on values.
 */
module DropTable {
  import opened Tech

  /** One drop entry: the resource, its chance, and the fields only one kind of entry has
      (nothing for outcrop drops, the amount and the unique flag for creature drops). */
  datatype Entry<X> = Entry(resource: TechType, chance: real, extra: X)

  /** Source TechType to its ordered entries. */
  type Table<X> = map<TechType, seq<Entry<X>>>

  /** The entries registered for `source`, empty when the source has none. */
  function EntriesFor<X>(t: Table<X>, source: TechType): seq<Entry<X>>
  {
    if source in t then t[source] else []
  }

  /** The resources of a list of entries, in list order. */
  function Resources<X>(s: seq<Entry<X>>): (rs: seq<TechType>)
    ensures |rs| == |s|
    ensures forall i | 0 <= i < |s| :: rs[i] == s[i].resource
  {
    seq(|s|, i requires 0 <= i < |s| => s[i].resource)
  }

  /** `List.Find` by resource: the index of the first entry for `r`, or -1 when there is none. */
  function IndexOf<X>(s: seq<Entry<X>>, r: TechType): (k: int)
    ensures -1 <= k < |s|
    ensures 0 <= k ==> s[k].resource == r
    ensures forall i | 0 <= i < |s| && (k < 0 || i < k) :: s[i].resource != r
    decreases |s|
  {
    if s == [] then -1
    else if s[0].resource == r then 0
    else
      var k := IndexOf(s[1..], r);
      if k < 0 then -1 else k + 1
  }

  /** The entry stored for `r` under `source`, if any. */
  function Lookup<X>(t: Table<X>, source: TechType, r: TechType): Option<Entry<X>>
  {
    var s := EntriesFor(t, source);
    var k := IndexOf(s, r);
    if k < 0 then NoEntry else Some(s[k])
  }

  datatype Option<T> = NoEntry | Some(value: T)

  /** Upsert on one list: overwrite the first entry for `r` in place, or append one. */
  function UpsertSeq<X>(s: seq<Entry<X>>, r: TechType, chance: real, extra: X): seq<Entry<X>>
  {
    var k := IndexOf(s, r);
    if k < 0 then s + [Entry(r, chance, extra)] else s[k := Entry(r, chance, extra)]
  }

  /** Upsert: the entry for `r` under `source` now carries the given fields; a missing
      entry is appended and a missing source gets a one-entry list. */
  function Upsert<X>(t: Table<X>, source: TechType, r: TechType, chance: real, extra: X): Table<X>
  {
    t[source := UpsertSeq(EntriesFor(t, source), r, chance, extra)]
  }

  /** Try-add: `(false, t)` when an entry for `r` exists under `source`, otherwise
      `(true, t')` with a new entry appended (or a new one-entry list). */
  function TryAdd<X>(t: Table<X>, source: TechType, r: TechType, chance: real, extra: X): (bool, Table<X>)
  {
    var s := EntriesFor(t, source);
    if IndexOf(s, r) >= 0 then (false, t)
    else (true, t[source := s + [Entry(r, chance, extra)]])
  }

  /** The entries of `s` whose resource is not in `rs`, in their order. */
  function Without<X>(s: seq<Entry<X>>, rs: set<TechType>): seq<Entry<X>>
    decreases |s|
  {
    if s == [] then []
    else (if s[0].resource in rs then [] else [s[0]]) + Without(s[1..], rs)
  }

  /** No resource occurs twice in the list. */
  ghost predicate UniqueResources<X>(s: seq<Entry<X>>)
  {
    forall i, j | 0 <= i < j < |s| :: s[i].resource != s[j].resource
  }

  /** At most one entry per resource under every source. */
  ghost predicate Unique<X>(t: Table<X>)
  {
    forall source | source in t :: UniqueResources(t[source])
  }

  /** The index of the first entry whose chance check succeeds, when the checks are answered
      by `answer` from the `k`-th check on and entries are checked in list order; -1 when
      every check fails. */
  function FirstSuccess<X>(s: seq<Entry<X>>, answer: (nat, TechType, real) -> bool, k: nat): (j: int)
    ensures -1 <= j < |s|
    ensures 0 <= j ==> answer(k + j, s[j].resource, s[j].chance)
    ensures forall i | 0 <= i < |s| && (j < 0 || i < j) :: !answer(k + i, s[i].resource, s[i].chance)
    decreases |s|
  {
    if s == [] then -1
    else if answer(k, s[0].resource, s[0].chance) then 0
    else
      var j := FirstSuccess(s[1..], answer, k + 1);
      if j < 0 then -1 else j + 1
  }

  /** The resource a scan that stopped at `j` returns: `None` when nothing succeeded. */
  function ChosenAt<X>(s: seq<Entry<X>>, j: int): TechType
    requires -1 <= j < |s|
  {
    if j < 0 then None else s[j].resource
  }

  /** How many checks a scan that stopped at `j` made: up to the success, or all of them. */
  function ChecksUpTo<X>(s: seq<Entry<X>>, j: int): nat
    requires -1 <= j < |s|
  {
    if j < 0 then |s| else j + 1
  }

  /** One registration of a batch: source, resource, chance and kind-specific fields. */
  datatype Op<X> = Op(source: TechType, resource: TechType, chance: real, extra: X)

  /** The batch upsert: every op upserted, in order. */
  function UpsertAll<X>(t: Table<X>, ops: seq<Op<X>>): Table<X>
    decreases |ops|
  {
    if ops == [] then t
    else UpsertAll(Upsert(t, ops[0].source, ops[0].resource, ops[0].chance, ops[0].extra), ops[1..])
  }

  /** The batch try-add: every op tried, in order. */
  function TryAddAll<X>(t: Table<X>, ops: seq<Op<X>>): Table<X>
    decreases |ops|
  {
    if ops == [] then t
    else TryAddAll(TryAdd(t, ops[0].source, ops[0].resource, ops[0].chance, ops[0].extra).1, ops[1..])
  }

  /** What a batch try-add reports: for every op, whether it created an entry. */
  function TryAddFlags<X>(t: Table<X>, ops: seq<Op<X>>): (flags: seq<bool>)
    ensures |flags| == |ops|
    decreases |ops|
  {
    if ops == [] then []
    else
      var (created, t1) := TryAdd(t, ops[0].source, ops[0].resource, ops[0].chance, ops[0].extra);
      [created] + TryAddFlags(t1, ops[1..])
  }

  // ---------------------------------------------------------------------------
  // Lookup and IndexOf

  /** Any index that is a first match is the one `IndexOf` returns. */
  lemma IndexOfIs<X>(s: seq<Entry<X>>, r: TechType, k: int)
    requires -1 <= k < |s|
    requires 0 <= k ==> s[k].resource == r
    requires forall i | 0 <= i < |s| && (k < 0 || i < k) :: s[i].resource != r
    ensures IndexOf(s, r) == k
  {
  }

  /** `r` has an entry exactly when it is among the list's resources. */
  lemma IndexOfFound<X>(s: seq<Entry<X>>, r: TechType)
    ensures IndexOf(s, r) >= 0 <==> r in Resources(s)
  {
    if r in Resources(s) {
      var i :| 0 <= i < |s| && Resources(s)[i] == r;
      assert s[i].resource == r;
    }
  }

  /** Appending entries after a list does not change the first match of a resource it has. */
  lemma IndexOfPrefix<X>(s: seq<Entry<X>>, more: seq<Entry<X>>, r: TechType)
    requires IndexOf(s, r) >= 0
    ensures IndexOf(s + more, r) == IndexOf(s, r)
  {
    IndexOfIs(s + more, r, IndexOf(s, r));
  }

  // ---------------------------------------------------------------------------
  // Upsert

  /** Reading back an upserted resource gives exactly the fields written. */
  lemma LookupAfterUpsert<X>(t: Table<X>, source: TechType, r: TechType, chance: real, extra: X)
    ensures Lookup(Upsert(t, source, r, chance, extra), source, r) == Some(Entry(r, chance, extra))
  {
    var s := EntriesFor(t, source);
    var k := IndexOf(s, r);
    var s' := UpsertSeq(s, r, chance, extra);
    if k < 0 {
      IndexOfIs(s', r, |s|);
    } else {
      IndexOfIs(s', r, k);
    }
  }

  /** An upsert changes no other (source, resource) pair. */
  lemma UpsertLeavesOthers<X>(t: Table<X>, source: TechType, r: TechType, chance: real, extra: X,
                              source': TechType, r': TechType)
    requires source' != source || r' != r
    ensures Lookup(Upsert(t, source, r, chance, extra), source', r') == Lookup(t, source', r')
  {
    if source' == source {
      var s := EntriesFor(t, source);
      var k := IndexOf(s, r);
      var s' := UpsertSeq(s, r, chance, extra);
      var k' := IndexOf(s, r');
      if k < 0 {
        if k' < 0 { IndexOfIs(s', r', -1); } else { IndexOfIs(s', r', k'); }
      } else {
        IndexOfIs(s', r', k');
      }
    }
  }

  /** Shape of an upsert: other sources keep their lists; under `source` the list keeps its
      length and order and only the first entry for `r` is rewritten, or, when `r` had no
      entry, the new entry is appended after the unchanged list. */
  lemma UpsertShape<X>(t: Table<X>, source: TechType, r: TechType, chance: real, extra: X)
    ensures var t' := Upsert(t, source, r, chance, extra);
      && t'.Keys == t.Keys + {source}
      && (forall o | o in t && o != source :: t'[o] == t[o])
      && var s, s' := EntriesFor(t, source), t'[source];
      && (r in Resources(s) ==> |s'| == |s| && Resources(s') == Resources(s))
      && (r !in Resources(s) ==> s' == s + [Entry(r, chance, extra)])
      && (forall i | 0 <= i < |s| && i != IndexOf(s, r) :: s'[i] == s[i])
  {
    var s := EntriesFor(t, source);
    IndexOfFound(s, r);
    var s' := UpsertSeq(s, r, chance, extra);
    if r in Resources(s) {
      assert Resources(s') == Resources(s);
    }
  }

  /** An upsert never creates a second entry for a resource under one source. */
  lemma UpsertKeepsUnique<X>(t: Table<X>, source: TechType, r: TechType, chance: real, extra: X)
    requires Unique(t)
    ensures Unique(Upsert(t, source, r, chance, extra))
  {
    var s := EntriesFor(t, source);
    assert UniqueResources(s);
  }

  /** Upserting the same resource twice leaves what the second call wrote: the later call wins. */
  lemma UpsertLastWins<X>(t: Table<X>, source: TechType, r: TechType, c1: real, x1: X, c2: real, x2: X)
    ensures Upsert(Upsert(t, source, r, c1, x1), source, r, c2, x2) == Upsert(t, source, r, c2, x2)
  {
    var s := EntriesFor(t, source);
    var k := IndexOf(s, r);
    var s1 := UpsertSeq(s, r, c1, x1);
    assert EntriesFor(Upsert(t, source, r, c1, x1), source) == s1;
    if k < 0 {
      IndexOfIs(s1, r, |s|);
      assert s1[|s| := Entry(r, c2, x2)] == s + [Entry(r, c2, x2)];
    } else {
      IndexOfIs(s1, r, k);
      assert s1[k := Entry(r, c2, x2)] == s[k := Entry(r, c2, x2)];
    }
    assert EntriesFor(Upsert(t, source, r, c1, x1), source) == s1;
  }

  /** Upsert under a registered source without an entry for `r` appends one entry. */
  lemma UpsertAppends<X>(t: Table<X>, source: TechType, r: TechType, chance: real, extra: X)
    requires source in t && IndexOf(t[source], r) < 0
    ensures Upsert(t, source, r, chance, extra) == t[source := t[source] + [Entry(r, chance, extra)]]
  {
  }

  /** Upsert of a resource that has an entry overwrites that entry in place. */
  lemma UpsertOverwrites<X>(t: Table<X>, source: TechType, r: TechType, chance: real, extra: X)
    requires source in t && 0 <= IndexOf(t[source], r)
    ensures Upsert(t, source, r, chance, extra) == t[source := t[source][IndexOf(t[source], r) := Entry(r, chance, extra)]]
  {
  }

  /** Upsert under an unregistered source creates its one-entry list. */
  lemma UpsertNewSource<X>(t: Table<X>, source: TechType, r: TechType, chance: real, extra: X)
    requires source !in t
    ensures Upsert(t, source, r, chance, extra) == t[source := [Entry(r, chance, extra)]]
  {
    assert UpsertSeq([], r, chance, extra) == [Entry(r, chance, extra)];
  }

  /** Upsert is idempotent: repeating a call changes nothing. */
  lemma UpsertIdempotent<X>(t: Table<X>, source: TechType, r: TechType, chance: real, extra: X)
    ensures var t' := Upsert(t, source, r, chance, extra);
      Upsert(t', source, r, chance, extra) == t'
  {
    UpsertLastWins(t, source, r, chance, extra, chance, extra);
  }

  // ---------------------------------------------------------------------------
  // Try-add

  /** Try-add reports `false` and changes nothing exactly when an entry for the resource
      exists; otherwise the new entry can be read back and nothing else changed. */
  lemma TryAddContract<X>(t: Table<X>, source: TechType, r: TechType, chance: real, extra: X)
    ensures var (created, t') := TryAdd(t, source, r, chance, extra);
      && (created <==> Lookup(t, source, r) == NoEntry)
      && (!created ==> t' == t)
      && (created ==> Lookup(t', source, r) == Some(Entry(r, chance, extra)))
      && (created ==> EntriesFor(t', source) == EntriesFor(t, source) + [Entry(r, chance, extra)])
      && (forall o | o in t && o != source :: o in t' && t'[o] == t[o])
  {
    var s := EntriesFor(t, source);
    if IndexOf(s, r) < 0 {
      IndexOfIs(s + [Entry(r, chance, extra)], r, |s|);
    }
  }

  /** Try-add when the pair has an entry: `false`, nothing changes. */
  lemma TryAddExisting<X>(t: Table<X>, source: TechType, r: TechType, chance: real, extra: X)
    requires source in t && 0 <= IndexOf(t[source], r)
    ensures TryAdd(t, source, r, chance, extra) == (false, t)
  {
  }

  /** Try-add when the source has a list without the resource: `true`, the entry appended. */
  lemma TryAddAppends<X>(t: Table<X>, source: TechType, r: TechType, chance: real, extra: X)
    requires source in t && IndexOf(t[source], r) < 0
    ensures TryAdd(t, source, r, chance, extra) == (true, t[source := t[source] + [Entry(r, chance, extra)]])
  {
  }

  /** Try-add for a source without a list: `true`, a one-entry list. */
  lemma TryAddNewSource<X>(t: Table<X>, source: TechType, r: TechType, chance: real, extra: X)
    requires source !in t
    ensures TryAdd(t, source, r, chance, extra) == (true, t[source := [Entry(r, chance, extra)]])
  {
    assert [] + [Entry(r, chance, extra)] == [Entry(r, chance, extra)];
  }

  /** Try-add never creates a second entry for a resource under one source. */
  lemma TryAddKeepsUnique<X>(t: Table<X>, source: TechType, r: TechType, chance: real, extra: X)
    requires Unique(t)
    ensures Unique(TryAdd(t, source, r, chance, extra).1)
  {
    var s := EntriesFor(t, source);
    assert UniqueResources(s);
  }

  /** A try-add never changes an entry that was already there. */
  lemma TryAddKeepsLookup<X>(t: Table<X>, source: TechType, r: TechType, chance: real, extra: X,
                             source': TechType, r': TechType)
    requires Lookup(t, source', r') != NoEntry
    ensures Lookup(TryAdd(t, source, r, chance, extra).1, source', r') == Lookup(t, source', r')
  {
    TryAddContract(t, source, r, chance, extra);
    if TryAdd(t, source, r, chance, extra).0 && source' == source {
      IndexOfPrefix(EntriesFor(t, source), [Entry(r, chance, extra)], r');
    }
  }

  // ---------------------------------------------------------------------------
  // Batches

  /** Every op of the batch has an entry for its (source, resource) pair in `t`. */
  ghost predicate AllPresent<X>(t: Table<X>, ops: seq<Op<X>>)
  {
    forall i | 0 <= i < |ops| :: Lookup(t, ops[i].source, ops[i].resource) != NoEntry
  }

  /** A batch try-add never changes an entry that was already there. */
  lemma {:induction false} TryAddAllKeepsLookup<X>(t: Table<X>, ops: seq<Op<X>>, source: TechType, r: TechType)
    requires Lookup(t, source, r) != NoEntry
    ensures Lookup(TryAddAll(t, ops), source, r) == Lookup(t, source, r)
    decreases |ops|
  {
    if ops != [] {
      var t1 := TryAdd(t, ops[0].source, ops[0].resource, ops[0].chance, ops[0].extra).1;
      TryAddKeepsLookup(t, ops[0].source, ops[0].resource, ops[0].chance, ops[0].extra, source, r);
      TryAddAllKeepsLookup(t1, ops[1..], source, r);
    }
  }

  /** After a batch try-add every op of the batch has an entry. */
  lemma {:induction false} TryAddAllMakesPresent<X>(t: Table<X>, ops: seq<Op<X>>)
    ensures AllPresent(TryAddAll(t, ops), ops)
    decreases |ops|
  {
    if ops != [] {
      var op := ops[0];
      var t1 := TryAdd(t, op.source, op.resource, op.chance, op.extra).1;
      TryAddContract(t, op.source, op.resource, op.chance, op.extra);
      assert Lookup(t1, op.source, op.resource) != NoEntry;
      TryAddAllKeepsLookup(t1, ops[1..], op.source, op.resource);
      TryAddAllMakesPresent(t1, ops[1..]);
      forall i | 0 <= i < |ops|
        ensures Lookup(TryAddAll(t, ops), ops[i].source, ops[i].resource) != NoEntry
      {
        if i > 0 {
          assert ops[i] == ops[1..][i - 1];
        }
      }
    }
  }

  /** A batch try-add whose every pair is already present changes nothing. */
  lemma {:induction false} TryAddAllPresentIsNoop<X>(t: Table<X>, ops: seq<Op<X>>)
    requires AllPresent(t, ops)
    ensures TryAddAll(t, ops) == t
    decreases |ops|
  {
    if ops != [] {
      assert Lookup(t, ops[0].source, ops[0].resource) != NoEntry;
      assert forall i | 0 <= i < |ops[1..]| :: ops[1..][i] == ops[i + 1];
      TryAddAllPresentIsNoop(t, ops[1..]);
    }
  }

  /** Running the same batch try-add again changes nothing: seeding is safe to repeat. */
  lemma TryAddAllIdempotent<X>(t: Table<X>, ops: seq<Op<X>>)
    ensures TryAddAll(TryAddAll(t, ops), ops) == TryAddAll(t, ops)
  {
    TryAddAllMakesPresent(t, ops);
    TryAddAllPresentIsNoop(TryAddAll(t, ops), ops);
  }

  /** A batch try-add keeps one entry per resource. */
  lemma {:induction false} TryAddAllKeepsUnique<X>(t: Table<X>, ops: seq<Op<X>>)
    requires Unique(t)
    ensures Unique(TryAddAll(t, ops))
    decreases |ops|
  {
    if ops != [] {
      TryAddKeepsUnique(t, ops[0].source, ops[0].resource, ops[0].chance, ops[0].extra);
      TryAddAllKeepsUnique(TryAdd(t, ops[0].source, ops[0].resource, ops[0].chance, ops[0].extra).1, ops[1..]);
    }
  }

  /** A batch upsert keeps one entry per resource. */
  lemma {:induction false} UpsertAllKeepsUnique<X>(t: Table<X>, ops: seq<Op<X>>)
    requires Unique(t)
    ensures Unique(UpsertAll(t, ops))
    decreases |ops|
  {
    if ops != [] {
      UpsertKeepsUnique(t, ops[0].source, ops[0].resource, ops[0].chance, ops[0].extra);
      UpsertAllKeepsUnique(Upsert(t, ops[0].source, ops[0].resource, ops[0].chance, ops[0].extra), ops[1..]);
    }
  }

  /** A batch upsert is the upsert of its last op after the batch of the others. */
  lemma {:induction false} UpsertAllSnoc<X>(t: Table<X>, ops: seq<Op<X>>, op: Op<X>)
    ensures UpsertAll(t, ops + [op]) == Upsert(UpsertAll(t, ops), op.source, op.resource, op.chance, op.extra)
    decreases |ops|
  {
    if ops == [] {
      assert [op][1..] == [];
    } else {
      assert (ops + [op])[1..] == ops[1..] + [op];
      UpsertAllSnoc(Upsert(t, ops[0].source, ops[0].resource, ops[0].chance, ops[0].extra), ops[1..], op);
    }
  }

  /** In a batch upsert the last op for a pair decides its entry. */
  lemma UpsertAllLastWins<X>(t: Table<X>, ops: seq<Op<X>>, op: Op<X>)
    ensures Lookup(UpsertAll(t, ops + [op]), op.source, op.resource) == Some(Entry(op.resource, op.chance, op.extra))
  {
    UpsertAllSnoc(t, ops, op);
    LookupAfterUpsert(UpsertAll(t, ops), op.source, op.resource, op.chance, op.extra);
  }

  /** A batch upsert keeps every existing list's resources in order: it only rewrites
      entries in place or appends new ones after them. */
  lemma {:induction false} UpsertAllKeepsOrder<X>(t: Table<X>, ops: seq<Op<X>>, source: TechType)
    ensures Resources(EntriesFor(t, source)) <= Resources(EntriesFor(UpsertAll(t, ops), source))
    decreases |ops|
  {
    if ops != [] {
      var op := ops[0];
      var t1 := Upsert(t, op.source, op.resource, op.chance, op.extra);
      UpsertShape(t, op.source, op.resource, op.chance, op.extra);
      assert Resources(EntriesFor(t, source)) <= Resources(EntriesFor(t1, source)) by {
        if source == op.source && op.resource !in Resources(EntriesFor(t, source)) {
          assert Resources(EntriesFor(t1, source)) == Resources(EntriesFor(t, source)) + [op.resource];
        }
      }
      UpsertAllKeepsOrder(t1, ops[1..], source);
    }
  }

  /** An entry no op of the batch names is left as it was. */
  lemma {:induction false} UpsertAllLeavesOthers<X>(t: Table<X>, ops: seq<Op<X>>, source: TechType, r: TechType)
    requires forall i | 0 <= i < |ops| :: ops[i].source != source || ops[i].resource != r
    ensures Lookup(UpsertAll(t, ops), source, r) == Lookup(t, source, r)
    decreases |ops|
  {
    if ops != [] {
      UpsertLeavesOthers(t, ops[0].source, ops[0].resource, ops[0].chance, ops[0].extra, source, r);
      assert forall i | 0 <= i < |ops[1..]| :: ops[1..][i] == ops[i + 1];
      UpsertAllLeavesOthers(Upsert(t, ops[0].source, ops[0].resource, ops[0].chance, ops[0].extra), ops[1..], source, r);
    }
  }

  // ---------------------------------------------------------------------------
  // Removal

  /** `Without` keeps exactly the entries whose resource is not removed, in order. */
  lemma {:induction false} WithoutMembers<X>(s: seq<Entry<X>>, rs: set<TechType>)
    ensures forall e | e in Without(s, rs) :: e in s && e.resource !in rs
    ensures forall e | e in s && e.resource !in rs :: e in Without(s, rs)
    ensures |Without(s, rs)| <= |s|
    decreases |s|
  {
    if s != [] {
      WithoutMembers(s[1..], rs);
      assert s == [s[0]] + s[1..];
    }
  }

  /** Removal distributes over concatenation: the kept entries of each part stay in their
      part's order, and those of the first part come first. */
  lemma {:induction false} WithoutAppend<X>(a: seq<Entry<X>>, b: seq<Entry<X>>, rs: set<TechType>)
    ensures Without(a + b, rs) == Without(a, rs) + Without(b, rs)
    decreases |a|
  {
    if a == [] {
      assert a + b == b;
    } else {
      WithoutAppend(a[1..], b, rs);
      assert (a + b)[1..] == a[1..] + b;
      assert (a + b)[0] == a[0];
    }
  }


  /** Removing resources from a list without duplicates leaves none. */
  lemma {:induction false} WithoutKeepsUnique<X>(s: seq<Entry<X>>, rs: set<TechType>)
    requires UniqueResources(s)
    ensures UniqueResources(Without(s, rs))
    decreases |s|
  {
    if s != [] {
      WithoutKeepsUnique(s[1..], rs);
      WithoutMembers(s[1..], rs);
      var w := Without(s[1..], rs);
      forall j | 0 <= j < |w|
        ensures w[j].resource != s[0].resource
      {
        assert w[j] in w;
        var i :| 0 <= i < |s[1..]| && s[1..][i] == w[j];
        assert s[i + 1] == w[j];
      }
    }
  }

  // ---------------------------------------------------------------------------
  // Selection

  /** Any index that is the first success is the one `FirstSuccess` returns. */
  lemma FirstSuccessIs<X>(s: seq<Entry<X>>, answer: (nat, TechType, real) -> bool, k: nat, j: int)
    requires -1 <= j < |s|
    requires 0 <= j ==> answer(k + j, s[j].resource, s[j].chance)
    requires forall i | 0 <= i < |s| && (j < 0 || i < j) :: !answer(k + i, s[i].resource, s[i].chance)
    ensures FirstSuccess(s, answer, k) == j
  {
  }

  /** The scan of `ChooseRandomResourceTechType`: the first entry of `s` whose check
      succeeds (its resource, or `None` when every check fails), with the check count after
      the scan. */
  function Scan<X>(s: seq<Entry<X>>, answer: (nat, TechType, real) -> bool, k: nat): (TechType, nat)
  {
    var j := FirstSuccess(s, answer, k);
    (ChosenAt(s, j), k + ChecksUpTo(s, j))
  }

  /** `CustomDrops[source]` (a `KeyNotFoundException` when the source is missing), then the
      scan of its list. */
  function Select<X>(t: Table<X>, source: TechType, answer: (nat, TechType, real) -> bool, k: nat): (Outcome<TechType>, nat)
  {
    if source !in t then (Threw(KeyNotFound), k)
    else
      var (r, k') := Scan(t[source], answer, k);
      (Done(r), k')
  }

  /** First success wins: a chosen resource is the first entry whose check succeeded, the
      checks before it all failed and none after it was made; `None` comes back (after one
      check per entry) when every check failed, or when an entry for `None` itself won. */
  lemma ScanFirstSuccess<X>(s: seq<Entry<X>>, answer: (nat, TechType, real) -> bool, k: nat)
    ensures var (r, k') := Scan(s, answer, k);
      || (exists j | 0 <= j < |s| ::
            && answer(k + j, s[j].resource, s[j].chance)
            && (forall i | 0 <= i < j :: !answer(k + i, s[i].resource, s[i].chance))
            && r == s[j].resource && k' == k + j + 1)
      || ((forall i | 0 <= i < |s| :: !answer(k + i, s[i].resource, s[i].chance))
            && r == None && k' == k + |s|)
  {
    var j := FirstSuccess(s, answer, k);
    if 0 <= j {
      assert 0 <= j < |s|;
    }
  }

  /** The scan only depends on the checks it makes: a resource other than `None` comes back
      exactly when some check succeeds. */
  lemma ScanNoneWhenAllFail<X>(s: seq<Entry<X>>, answer: (nat, TechType, real) -> bool, k: nat)
    requires forall i | 0 <= i < |s| :: s[i].resource != None
    ensures Scan(s, answer, k).0 == None <==> forall i | 0 <= i < |s| :: !answer(k + i, s[i].resource, s[i].chance)
  {
    ScanFirstSuccess(s, answer, k);
  }

  // ---------------------------------------------------------------------------
  // Batches, one op at a time

  /** A batch try-add is the try-add of its last op after the batch of the others. */
  lemma {:induction false} TryAddAllSnoc<X>(t: Table<X>, ops: seq<Op<X>>, op: Op<X>)
    ensures TryAddAll(t, ops + [op]) == TryAdd(TryAddAll(t, ops), op.source, op.resource, op.chance, op.extra).1
    decreases |ops|
  {
    if ops == [] {
      assert [op][1..] == [];
    } else {
      assert (ops + [op])[1..] == ops[1..] + [op];
      TryAddAllSnoc(TryAdd(t, ops[0].source, ops[0].resource, ops[0].chance, ops[0].extra).1, ops[1..], op);
    }
  }

  /** The flags of a batch try-add extended by one op: the flag of that op is appended. */
  lemma {:induction false} TryAddFlagsSnoc<X>(t: Table<X>, ops: seq<Op<X>>, op: Op<X>)
    ensures TryAddFlags(t, ops + [op])
         == TryAddFlags(t, ops) + [TryAdd(TryAddAll(t, ops), op.source, op.resource, op.chance, op.extra).0]
    decreases |ops|
  {
    if ops == [] {
      assert [op][1..] == [];
    } else {
      assert (ops + [op])[1..] == ops[1..] + [op];
      TryAddFlagsSnoc(TryAdd(t, ops[0].source, ops[0].resource, ops[0].chance, ops[0].extra).1, ops[1..], op);
    }
  }

  /** The flag a batch try-add reports for an op is `true` exactly when no entry for its pair
      was there when the op ran: not before the batch, and not added by an earlier op. */
  lemma {:induction false} TryAddFlagsMeaning<X>(t: Table<X>, ops: seq<Op<X>>, i: nat)
    requires i < |ops|
    ensures TryAddFlags(t, ops)[i] <==> Lookup(TryAddAll(t, ops[..i]), ops[i].source, ops[i].resource) == NoEntry
    decreases i
  {
    var t1 := TryAdd(t, ops[0].source, ops[0].resource, ops[0].chance, ops[0].extra).1;
    if i == 0 {
      TryAddContract(t, ops[0].source, ops[0].resource, ops[0].chance, ops[0].extra);
    } else {
      TryAddFlagsMeaning(t1, ops[1..], i - 1);
      assert ops[..i][1..] == ops[1..][..i - 1];
    }
  }

  /** A batch upsert split in two is the second part run after the first. */
  lemma {:induction false} UpsertAllAppend<X>(t: Table<X>, ops: seq<Op<X>>, more: seq<Op<X>>)
    ensures UpsertAll(t, ops + more) == UpsertAll(UpsertAll(t, ops), more)
    decreases |ops|
  {
    if ops == [] {
      assert ops + more == more;
    } else {
      assert (ops + more)[1..] == ops[1..] + more;
      UpsertAllAppend(Upsert(t, ops[0].source, ops[0].resource, ops[0].chance, ops[0].extra), ops[1..], more);
    }
  }

  /** One more op of a batch upsert, as a loop over the batch sees it. */
  lemma UpsertAllStep<X>(t: Table<X>, ops: seq<Op<X>>, i: nat)
    requires i < |ops|
    ensures Upsert(UpsertAll(t, ops[..i]), ops[i].source, ops[i].resource, ops[i].chance, ops[i].extra)
         == UpsertAll(t, ops[..i + 1])
  {
    assert ops[..i + 1] == ops[..i] + [ops[i]];
    UpsertAllSnoc(t, ops[..i], ops[i]);
  }

  /** One more op of a batch try-add, as a loop over the batch sees it: the table moves on
      and the op's flag lands at position `i` of the reported flags. */
  lemma TryAddAllStep<X>(t: Table<X>, ops: seq<Op<X>>, i: nat, flags: seq<bool>)
    requires i < |ops| && i < |flags| && flags[..i] == TryAddFlags(t, ops[..i])
    ensures var (created, t') := TryAdd(TryAddAll(t, ops[..i]), ops[i].source, ops[i].resource, ops[i].chance, ops[i].extra);
      && t' == TryAddAll(t, ops[..i + 1])
      && flags[i := created][..i + 1] == TryAddFlags(t, ops[..i + 1])
  {
    var created := TryAdd(TryAddAll(t, ops[..i]), ops[i].source, ops[i].resource, ops[i].chance, ops[i].extra).0;
    assert ops[..i + 1] == ops[..i] + [ops[i]];
    TryAddAllSnoc(t, ops[..i], ops[i]);
    TryAddFlagsSnoc(t, ops[..i], ops[i]);
    assert flags[i := created][..i + 1] == flags[..i] + [created];
  }

  /** In a batch upsert, an op that no later op of the batch repeats (same source and
      resource) decides the entry for its pair. */
  lemma UpsertAllLastFor<X>(t: Table<X>, ops: seq<Op<X>>, i: nat)
    requires i < |ops|
    requires forall j | i < j < |ops| :: ops[j].source != ops[i].source || ops[j].resource != ops[i].resource
    ensures Lookup(UpsertAll(t, ops), ops[i].source, ops[i].resource) == Some(Entry(ops[i].resource, ops[i].chance, ops[i].extra))
  {
    assert ops == ops[..i] + [ops[i]] + ops[i + 1..];
    UpsertAllAppend(t, ops[..i] + [ops[i]], ops[i + 1..]);
    UpsertAllLastWins(t, ops[..i], ops[i]);
    UpsertAllLeavesOthers(UpsertAll(t, ops[..i] + [ops[i]]), ops[i + 1..], ops[i].source, ops[i].resource);
  }

  /** A batch upsert has a list for `source` exactly when `source` had one or some op of
      the batch names it. */
  lemma {:induction false} UpsertAllKeys<X>(t: Table<X>, ops: seq<Op<X>>, source: TechType)
    ensures source in UpsertAll(t, ops) <==> source in t || exists i | 0 <= i < |ops| :: ops[i].source == source
    decreases |ops|
  {
    if ops != [] {
      UpsertAllKeys(Upsert(t, ops[0].source, ops[0].resource, ops[0].chance, ops[0].extra), ops[1..], source);
      assert forall i | 1 <= i < |ops| :: ops[1..][i - 1] == ops[i];
    }
  }

  /** The same for a batch try-add. */
  lemma {:induction false} TryAddAllKeys<X>(t: Table<X>, ops: seq<Op<X>>, source: TechType)
    ensures source in TryAddAll(t, ops) <==> source in t || exists i | 0 <= i < |ops| :: ops[i].source == source
    decreases |ops|
  {
    if ops != [] {
      TryAddAllKeys(TryAdd(t, ops[0].source, ops[0].resource, ops[0].chance, ops[0].extra).1, ops[1..], source);
      assert forall i | 1 <= i < |ops| :: ops[1..][i - 1] == ops[i];
    }
  }

  // ---------------------------------------------------------------------------
  // Repeating a batch upsert

  /** Whether `t` has an entry for the op's (source, resource) pair. */
  ghost predicate Present<X>(t: Table<X>, op: Op<X>)
  {
    Lookup(t, op.source, op.resource) != NoEntry
  }

  /** Upserting the fields an entry already has changes nothing. */
  lemma UpsertSame<X>(t: Table<X>, op: Op<X>)
    requires Lookup(t, op.source, op.resource) == Some(Entry(op.resource, op.chance, op.extra))
    ensures Upsert(t, op.source, op.resource, op.chance, op.extra) == t
  {
    assert op.source in t;
    var s := t[op.source];
    var k := IndexOf(s, op.resource);
    assert s[k := s[k]] == s;
  }

  /** Upserts of two different pairs that both have entries can be done in either order. */
  lemma UpsertCommute<X>(t: Table<X>, a: Op<X>, b: Op<X>)
    requires Present(t, a) && Present(t, b)
    requires a.source != b.source || a.resource != b.resource
    ensures Upsert(Upsert(t, a.source, a.resource, a.chance, a.extra), b.source, b.resource, b.chance, b.extra)
         == Upsert(Upsert(t, b.source, b.resource, b.chance, b.extra), a.source, a.resource, a.chance, a.extra)
  {
    assert a.source in t && b.source in t;
    var ea, eb := Entry(a.resource, a.chance, a.extra), Entry(b.resource, b.chance, b.extra);
    if a.source == b.source {
      var s := t[a.source];
      var ka, kb := IndexOf(s, a.resource), IndexOf(s, b.resource);
      IndexOfIs(s[ka := ea], b.resource, kb);
      IndexOfIs(s[kb := eb], a.resource, ka);
      assert s[ka := ea][kb := eb] == s[kb := eb][ka := ea];
    }
  }

  /** An upsert keeps every entry present. */
  lemma UpsertKeepsPresent<X>(t: Table<X>, op: Op<X>, other: Op<X>)
    requires Present(t, other)
    ensures Present(Upsert(t, op.source, op.resource, op.chance, op.extra), other)
  {
    if op.source == other.source && op.resource == other.resource {
      LookupAfterUpsert(t, op.source, op.resource, op.chance, op.extra);
    } else {
      UpsertLeavesOthers(t, op.source, op.resource, op.chance, op.extra, other.source, other.resource);
    }
  }

  /** An upsert keeps every op of a batch present. */
  lemma UpsertKeepsAllPresent<X>(t: Table<X>, op: Op<X>, ops: seq<Op<X>>)
    requires AllPresent(t, ops)
    ensures AllPresent(Upsert(t, op.source, op.resource, op.chance, op.extra), ops)
  {
    forall i | 0 <= i < |ops|
      ensures Present(Upsert(t, op.source, op.resource, op.chance, op.extra), ops[i])
    {
      assert Present(t, ops[i]);
      UpsertKeepsPresent(t, op, ops[i]);
    }
  }

  /** After a batch upsert every op of the batch has an entry. */
  lemma UpsertAllMakesPresent<X>(t: Table<X>, ops: seq<Op<X>>)
    ensures AllPresent(UpsertAll(t, ops), ops)
  {
    forall i | 0 <= i < |ops|
      ensures Lookup(UpsertAll(t, ops), ops[i].source, ops[i].resource) != NoEntry
    {
      var j := LastFor(ops, i);
      UpsertAllLastFor(t, ops, j);
    }
  }

  /** The last op of the batch, from `i` on, with the pair of op `i`. */
  function LastFor<X>(ops: seq<Op<X>>, i: nat): (j: nat)
    requires i < |ops|
    ensures i <= j < |ops| && ops[j].source == ops[i].source && ops[j].resource == ops[i].resource
    ensures forall l | j < l < |ops| :: ops[l].source != ops[i].source || ops[l].resource != ops[i].resource
    decreases |ops| - i
  {
    if exists l | i < l < |ops| :: ops[l].source == ops[i].source && ops[l].resource == ops[i].resource then
      var l :| i < l < |ops| && ops[l].source == ops[i].source && ops[l].resource == ops[i].resource;
      LastFor(ops, l)
    else i
  }

  /** An upsert that a later op of the batch repeats, on a table where all are present, is
      overwritten by it. */
  lemma {:induction false} UpsertAbsorbed<X>(t: Table<X>, op: Op<X>, ops: seq<Op<X>>)
    requires Present(t, op) && AllPresent(t, ops)
    requires exists j | 0 <= j < |ops| :: ops[j].source == op.source && ops[j].resource == op.resource
    ensures UpsertAll(Upsert(t, op.source, op.resource, op.chance, op.extra), ops) == UpsertAll(t, ops)
    decreases |ops|
  {
    var o := ops[0];
    assert Present(t, o);
    if o.source == op.source && o.resource == op.resource {
      UpsertLastWins(t, op.source, op.resource, op.chance, op.extra, o.chance, o.extra);
    } else {
      UpsertCommute(t, op, o);
      var t1 := Upsert(t, o.source, o.resource, o.chance, o.extra);
      UpsertKeepsPresent(t, o, op);
      UpsertKeepsAllPresent(t, o, ops[1..]);
      assert forall i | 0 <= i < |ops[1..]| :: ops[1..][i] == ops[i + 1];
      var j :| 0 <= j < |ops| && ops[j].source == op.source && ops[j].resource == op.resource;
      assert ops[1..][j - 1] == ops[j];
      UpsertAbsorbed(t1, op, ops[1..]);
    }
  }

  /** An upsert that no op of the batch repeats, on a table where all are present, can be
      done after the batch instead. */
  lemma {:induction false} UpsertCommutesPast<X>(t: Table<X>, op: Op<X>, ops: seq<Op<X>>)
    requires Present(t, op) && AllPresent(t, ops)
    requires forall j | 0 <= j < |ops| :: ops[j].source != op.source || ops[j].resource != op.resource
    ensures UpsertAll(Upsert(t, op.source, op.resource, op.chance, op.extra), ops)
         == Upsert(UpsertAll(t, ops), op.source, op.resource, op.chance, op.extra)
    decreases |ops|
  {
    if ops != [] {
      var o := ops[0];
      assert Present(t, o);
      UpsertCommute(t, op, o);
      var t1 := Upsert(t, o.source, o.resource, o.chance, o.extra);
      UpsertKeepsPresent(t, o, op);
      UpsertKeepsAllPresent(t, o, ops[1..]);
      assert forall i | 0 <= i < |ops[1..]| :: ops[1..][i] == ops[i + 1];
      UpsertCommutesPast(t1, op, ops[1..]);
    }
  }

  /** Repeating a batch upsert changes nothing: every pair it names already carries the
      fields of its last op. */
  lemma {:induction false} UpsertAllIdempotent<X>(t: Table<X>, ops: seq<Op<X>>)
    ensures UpsertAll(UpsertAll(t, ops), ops) == UpsertAll(t, ops)
    decreases |ops|
  {
    if ops != [] {
      var op, rest := ops[0], ops[1..];
      var t0 := Upsert(t, op.source, op.resource, op.chance, op.extra);
      var u := UpsertAll(t0, rest);
      assert u == UpsertAll(t, ops);
      UpsertAllMakesPresent(t, ops);
      assert Present(u, ops[0]);
      assert forall i | 0 <= i < |rest| :: rest[i] == ops[i + 1];
      assert AllPresent(u, rest) by {
        forall i | 0 <= i < |rest| ensures Present(u, rest[i]) {
          assert Present(u, ops[i + 1]);
        }
      }
      UpsertAllIdempotent(t0, rest);
      if exists j | 0 <= j < |rest| :: rest[j].source == op.source && rest[j].resource == op.resource {
        UpsertAbsorbed(u, op, rest);
      } else {
        UpsertCommutesPast(u, op, rest);
        UpsertAllLastFor(t, ops, 0);
        UpsertSame(u, op);
      }
    }
  }

  /** Scanning two lists one after the other: the second is only scanned, from where the
      first left the check count, when every check of the first failed. */
  lemma ScanAppend<X>(a: seq<Entry<X>>, b: seq<Entry<X>>, answer: (nat, TechType, real) -> bool, k: nat)
    ensures FirstSuccess(a, answer, k) >= 0 ==> Scan(a + b, answer, k) == Scan(a, answer, k)
    ensures FirstSuccess(a, answer, k) < 0 ==> Scan(a + b, answer, k) == Scan(b, answer, k + |a|)
  {
    var ja := FirstSuccess(a, answer, k);
    var jb := FirstSuccess(b, answer, k + |a|);
    var ab := a + b;
    if ja >= 0 {
      assert ab[ja] == a[ja];
      forall i | 0 <= i < ja ensures !answer(k + i, ab[i].resource, ab[i].chance) {
        assert ab[i] == a[i];
      }
      FirstSuccessIs(ab, answer, k, ja);
    } else {
      var j := if jb < 0 then -1 else |a| + jb;
      forall i | 0 <= i < |ab| && (j < 0 || i < j) ensures !answer(k + i, ab[i].resource, ab[i].chance) {
        if i < |a| {
          assert ab[i] == a[i];
        } else {
          assert ab[i] == b[i - |a|];
          assert k + i == k + |a| + (i - |a|);
        }
      }
      if jb >= 0 {
        assert ab[|a| + jb] == b[jb];
      }
      FirstSuccessIs(ab, answer, k, j);
    }
  }
}
