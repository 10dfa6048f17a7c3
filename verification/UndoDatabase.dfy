/** The object store with multi-level undo (libraries/db/undo_database.cpp). */
module UndoLog {
  import opened Wrappers

  /** The index an object lives in, and its number there. */
  datatype ObjectId = ObjectId(kind: nat, instance: nat)

  /** All objects, and the number each index hands out next; the indexes never change. */
  datatype Store<O> = Store(objects: map<ObjectId, O>, next: map<nat, nat>)

  /** What one undo session has recorded. */
  datatype UndoState<O> = UndoState(
    oldValues: map<ObjectId, O>, oldNext: map<nat, nat>, newIds: set<ObjectId>, removed: map<ObjectId, O>)

  /** Objects carry numbers that their index has already handed out. */
  ghost predicate WellNumbered<O>(s: Store<O>) {
    forall id | id in s.objects :: id.kind in s.next && id.instance < s.next[id.kind]
  }

  /** The record says truthfully how `id` fared between `was` and `now`. */
  ghost predicate TracksObject<O>(u: UndoState<O>, was: Store<O>, now: Store<O>, id: ObjectId) {
    if id in u.newIds then
      && id !in u.oldValues && id !in u.removed
      && id !in was.objects && id in now.objects
      && id.kind in was.next && was.next[id.kind] <= id.instance
    else if id in u.oldValues then
      id !in u.removed && id in now.objects && id in was.objects && was.objects[id] == u.oldValues[id]
    else if id in u.removed then
      id !in now.objects && id in was.objects && was.objects[id] == u.removed[id]
    else
      (id in was.objects <==> id in now.objects) && (id in was.objects ==> was.objects[id] == now.objects[id])
  }

  ghost predicate TracksNext<O>(u: UndoState<O>, was: Store<O>, now: Store<O>, kind: nat) {
    && (kind in u.oldNext ==> kind in was.next)
    && (kind in was.next ==>
          && kind in now.next && was.next[kind] <= now.next[kind]
          && was.next[kind] == if kind in u.oldNext then u.oldNext[kind] else now.next[kind])
  }

  /** The record undoes exactly the changes from `was` to `now`. */
  ghost predicate Tracks<O>(u: UndoState<O>, was: Store<O>, now: Store<O>) {
    && WellNumbered(was) && WellNumbered(now) && was.next.Keys == now.next.Keys
    && (forall id {:trigger TracksObject(u, was, now, id)} :: TracksObject(u, was, now, id))
    && (forall kind {:trigger TracksNext(u, was, now, kind)} :: TracksNext(u, was, now, kind))
  }

  function EmptyRecord<O>(): UndoState<O> {
    UndoState(map[], map[], {}, map[])
  }

  /** The store that playing the record back leaves. */
  function Revert<O>(u: UndoState<O>, now: Store<O>): Store<O> {
    Store((now.objects + u.oldValues) - u.newIds + u.removed, now.next + u.oldNext)
  }

  lemma {:induction false} RevertRestores<O>(u: UndoState<O>, was: Store<O>, now: Store<O>)
    requires Tracks(u, was, now)
    ensures Revert(u, now) == was
  {
    var back := Revert(u, now);
    forall id
      ensures id in back.objects <==> id in was.objects
      ensures id in was.objects ==> back.objects[id] == was.objects[id]
    {
      assert TracksObject(u, was, now, id);
    }
    forall kind
      ensures kind in back.next <==> kind in was.next
      ensures kind in was.next ==> back.next[kind] == was.next[kind]
    {
      assert TracksNext(u, was, now, kind);
    }
    assert back.objects == was.objects;
    assert back.next == was.next;
  }

  /** The loop that overwrites entries one by one. */
  method Overwrite<K(==), V>(m: map<K, V>, n: map<K, V>) returns (r: map<K, V>)
    ensures r == m + n
  {
    r := m;
    var todo := n.Keys;
    while todo != {}
      invariant todo <= n.Keys && r == m + (n - todo)
      decreases todo
    {
      var k :| k in todo;
      r := r[k := n[k]];
      todo := todo - {k};
    }
    assert n - {} == n;
  }

  /** The loop that erases entries one by one. */
  method EraseAll<K(==), V>(m: map<K, V>, keys: set<K>) returns (r: map<K, V>)
    ensures r == m - keys
  {
    r := m;
    var todo := keys;
    while todo != {}
      invariant todo <= keys && r == m - (keys - todo)
      decreases todo
    {
      var k :| k in todo;
      r := r - {k};
      todo := todo - {k};
    }
    assert keys - {} == keys;
  }

  /** The loop of `merge` over values, or counters, that the older record may have already. */
  method AddUnlessKnown<K(==), V>(m: map<K, V>, known: set<K>, n: map<K, V>) returns (r: map<K, V>)
    ensures r == (map k | k in n && k !in known && k !in m :: n[k]) + m
  {
    r := m;
    var todo := n.Keys;
    while todo != {}
      invariant todo <= n.Keys
      invariant r == (map k | k in n && k !in todo && k !in known && k !in m :: n[k]) + m
      decreases todo
    {
      var k :| k in todo;
      if k !in known && k !in r {
        r := r[k := n[k]];
      }
      todo := todo - {k};
    }
  }

  /** What becomes of the older record when the newer session removed one more object. */
  function AfterRemoval<O>(m: UndoState<O>, id: ObjectId, value: O): UndoState<O> {
    if id in m.newIds then
      m.(newIds := m.newIds - {id})
    else if id in m.oldValues then
      m.(removed := m.removed[id := m.oldValues[id]], oldValues := m.oldValues - {id})
    else
      m.(removed := m.removed[id := value])
  }

  /** The value the older record saves for a removed object. */
  function Saved<O>(a: UndoState<O>, gone: map<ObjectId, O>, id: ObjectId): O
    requires id in gone
  {
    if id in a.oldValues then a.oldValues[id] else gone[id]
  }

  function KeptValues<O>(a: UndoState<O>, gone: map<ObjectId, O>): map<ObjectId, O> {
    map i | i in a.oldValues && (i in gone ==> i in a.newIds) :: a.oldValues[i]
  }

  function KeptNew<O>(a: UndoState<O>, gone: map<ObjectId, O>): set<ObjectId> {
    set i | i in a.newIds && i !in gone
  }

  function Removals<O>(a: UndoState<O>, gone: map<ObjectId, O>): map<ObjectId, O> {
    map i | i in a.removed.Keys + gone.Keys && (i in a.removed || i !in a.newIds) ::
      if i in gone && i !in a.newIds then Saved(a, gone, i) else a.removed[i]
  }

  function AfterRemovals<O>(a: UndoState<O>, gone: map<ObjectId, O>): UndoState<O> {
    UndoState(KeptValues(a, gone), a.oldNext, KeptNew(a, gone), Removals(a, gone))
  }

  lemma {:induction false} OneMoreValue<O>(a: UndoState<O>, gone: map<ObjectId, O>, id: ObjectId, value: O)
    requires id !in gone
    ensures KeptValues(a, gone[id := value])
            == if id in a.newIds then KeptValues(a, gone) else KeptValues(a, gone) - {id}
  {
  }

  lemma {:induction false} OneMoreRemoved<O>(a: UndoState<O>, gone: map<ObjectId, O>, id: ObjectId, value: O)
    requires id !in gone
    ensures Removals(a, gone[id := value]) ==
            if id in a.newIds then Removals(a, gone) else Removals(a, gone)[id := Saved(a, gone[id := value], id)]
  {
    var gone' := gone[id := value];
    assert forall i | i in gone :: Saved(a, gone, i) == Saved(a, gone', i);
    var x := Removals(a, gone');
    var y := if id in a.newIds then Removals(a, gone) else Removals(a, gone)[id := Saved(a, gone', id)];
    assert forall i :: i in x <==> i in y;
    assert forall i | i in x :: x[i] == y[i];
  }

  lemma {:induction false} OneMoreRemoval<O>(a: UndoState<O>, gone: map<ObjectId, O>, id: ObjectId, value: O)
    requires id !in gone
    ensures AfterRemoval(AfterRemovals(a, gone), id, value) == AfterRemovals(a, gone[id := value])
  {
    OneMoreValue(a, gone, id, value);
    OneMoreRemoved(a, gone, id, value);
    var kept := KeptValues(a, gone);
    assert id in kept <==> id in a.oldValues;
    assert id !in a.oldValues ==> kept - {id} == kept;
    assert KeptNew(a, gone[id := value]) == KeptNew(a, gone) - {id};
    assert id !in a.newIds ==> KeptNew(a, gone) - {id} == KeptNew(a, gone);
  }

  /** The loop of `merge` over removed objects. */
  method MergeRemovals<O>(a: UndoState<O>, gone: map<ObjectId, O>) returns (m: UndoState<O>)
    ensures m == AfterRemovals(a, gone)
  {
    m := a;
    var todo := gone.Keys;
    assert AfterRemovals(a, gone - todo) == a;
    while todo != {}
      invariant todo <= gone.Keys && m == AfterRemovals(a, gone - todo)
      decreases todo
    {
      var id :| id in todo;
      OneMoreRemoval(a, gone - todo, id, gone[id]);
      m := AfterRemoval(m, id, gone[id]);
      assert gone - (todo - {id}) == (gone - todo)[id := gone[id]];
      todo := todo - {id};
    }
    assert gone - {} == gone;
  }

  /** The record that `merge` makes of an older record a and a newer record b. */
  function Merged<O>(a: UndoState<O>, b: UndoState<O>): UndoState<O> {
    AfterRemovals(
      UndoState(
        (map id | id in b.oldValues && id !in a.newIds && id !in a.oldValues :: b.oldValues[id]) + a.oldValues,
        b.oldNext + a.oldNext,
        a.newIds + b.newIds,
        a.removed),
      b.removed)
  }

  /** The four loops of `merge`, folding the newer record b into the older record a. */
  method MergeRecords<O>(a: UndoState<O>, b: UndoState<O>) returns (m: UndoState<O>)
    ensures m == Merged(a, b)
  {
    var values := AddUnlessKnown(a.oldValues, a.newIds, b.oldValues);
    var next := AddUnlessKnown(a.oldNext, {}, b.oldNext);
    assert next == b.oldNext + a.oldNext;
    m := MergeRemovals(UndoState(values, next, a.newIds + b.newIds, a.removed), b.removed);
  }

  lemma {:induction false} MergeComposesNext<O>(a: UndoState<O>, b: UndoState<O>, s0: Store<O>, s1: Store<O>,
                                                s2: Store<O>, kind: nat)
    requires TracksNext(a, s0, s1, kind) && TracksNext(b, s1, s2, kind)
    requires s0.next.Keys == s1.next.Keys
    ensures TracksNext(Merged(a, b), s0, s2, kind)
  {
  }

  /** The case table of `merge`: what happened in the first and in the second session, to one object. */
  lemma {:induction false} MergeComposesObject<O>(a: UndoState<O>, b: UndoState<O>, s0: Store<O>, s1: Store<O>,
                                                  s2: Store<O>, id: ObjectId)
    requires TracksObject(a, s0, s1, id) && TracksObject(b, s1, s2, id)
    requires id in s0.objects ==> id.kind in s0.next && id.instance < s0.next[id.kind]
    requires id.kind in s0.next ==> id.kind in s1.next && s0.next[id.kind] <= s1.next[id.kind]
    requires s0.next.Keys == s1.next.Keys
    ensures TracksObject(Merged(a, b), s0, s2, id)
  {
  }

  /** Merging composes: one record now undoes both sessions. */
  lemma {:induction false} MergeComposes<O>(a: UndoState<O>, b: UndoState<O>, s0: Store<O>, s1: Store<O>, s2: Store<O>)
    requires Tracks(a, s0, s1) && Tracks(b, s1, s2)
    ensures Tracks(Merged(a, b), s0, s2)
  {
    forall id
      ensures TracksObject(Merged(a, b), s0, s2, id)
    {
      assert TracksObject(a, s0, s1, id) && TracksObject(b, s1, s2, id) && TracksNext(a, s0, s1, id.kind);
      MergeComposesObject(a, b, s0, s1, s2, id);
    }
    forall kind
      ensures TracksNext(Merged(a, b), s0, s2, kind)
    {
      assert TracksNext(a, s0, s1, kind) && TracksNext(b, s1, s2, kind);
      MergeComposesNext(a, b, s0, s1, s2, kind);
    }
  }

  /** Record i undoes the changes from the start of session i to the start of the next. */
  ghost predicate Layer<O>(stack: seq<UndoState<O>>, history: seq<Store<O>>, now: Store<O>, i: nat)
    requires i < |stack| == |history|
  {
    Tracks(stack[i], history[i], if i + 1 < |history| then history[i + 1] else now)
  }

  ghost predicate Layered<O>(stack: seq<UndoState<O>>, history: seq<Store<O>>, now: Store<O>) {
    && |stack| == |history|
    && forall i: nat {:trigger Layer(stack, history, now, i)} | i < |stack| :: Layer(stack, history, now, i)
  }

  lemma {:induction false} LayeredCut<O>(stack: seq<UndoState<O>>, history: seq<Store<O>>, now: Store<O>, n: nat)
    requires Layered(stack, history, now) && n <= |stack|
    ensures n < |stack| ==> Tracks(stack[n], history[n], if n + 1 < |history| then history[n + 1] else now)
    ensures Layered(stack[..n], history[..n], if n < |history| then history[n] else now)
    ensures Layered(stack[n..], history[n..], now)
  {
    if n < |stack| {
      assert Layer(stack, history, now, n);
    }
    var top := if n < |history| then history[n] else now;
    forall i: nat | i < n
      ensures Layer(stack[..n], history[..n], top, i)
    {
      assert Layer(stack, history, now, i);
    }
    forall i: nat | i < |stack| - n
      ensures Layer(stack[n..], history[n..], now, i)
    {
      assert Layer(stack, history, now, n + i);
    }
  }

  lemma {:induction false} LayeredPush<O>(stack: seq<UndoState<O>>, history: seq<Store<O>>, u: UndoState<O>,
                                          was: Store<O>, now: Store<O>)
    requires Layered(stack, history, was) && Tracks(u, was, now)
    ensures Layered(stack + [u], history + [was], now)
  {
    forall i: nat | i < |stack| + 1
      ensures Layer(stack + [u], history + [was], now, i)
    {
      assert i < |stack| ==> Layer(stack, history, was, i);
    }
  }

  lemma {:induction false} EmptyRecordTracks<O>(s: Store<O>)
    requires WellNumbered(s)
    ensures Tracks(EmptyRecord(), s, s)
  {
  }

  /**
   The database. `history[i]` is the store as it was when record i was opened; it is what undoing
   down to that record has to bring back.
   */
  class ObjectDatabase<O> {
    var store: Store<O>
    var stack: seq<UndoState<O>>
    var activeSessions: nat
    var maxSize: nat
    ghost var history: seq<Store<O>>

    ghost predicate Valid()
      reads this
    {
      WellNumbered(store) && Layered(stack, history, store)
    }

    constructor (kinds: set<nat>)
      ensures Valid() && stack == [] && activeSessions == 0 && maxSize == 256
      ensures store == Store(map[], map k | k in kinds :: 0)
    {
      store := Store(map[], map k | k in kinds :: 0);
      stack, history, activeSessions, maxSize := [], [], 0, 256;
    }

    /** Every hook starts like this: with no record open, one is opened. */
    method EnsureRecord()
      requires Valid()
      modifies this`stack, this`history
      ensures Valid() && stack != []
      ensures Tracks(stack[|stack| - 1], history[|history| - 1], store)
      ensures if old(stack) == [] then history == [store] else stack == old(stack) && history == old(history)
    {
      if stack == [] {
        EmptyRecordTracks(store);
        LayeredPush(stack, history, EmptyRecord(), store, store);
        stack, history := [EmptyRecord()], [store];
      }
      LayeredCut(stack, history, store, |stack| - 1);
    }

    method SetLast(u: UndoState<O>, s: Store<O>)
      requires Valid() && stack != []
      requires Tracks(u, history[|history| - 1], s)
      modifies this`stack, this`store
      ensures Valid() && store == s
      ensures stack == old(stack)[..|old(stack)| - 1] + [u]
    {
      var n := |stack| - 1;
      LayeredCut(stack, history, store, n);
      LayeredPush(stack[..n], history[..n], u, history[n], s);
      assert history == history[..n] + [history[n]];
      stack := stack[..n] + [u];
      store := s;
    }

    /** `create`, then `on_create`; `None` for an index that does not exist. */
    method Create(kind: nat, value: O) returns (ok: bool, id: ObjectId)
      requires Valid()
      modifies this
      ensures Valid() && activeSessions == old(activeSessions) && maxSize == old(maxSize)
      ensures ok <==> kind in old(store).next
      ensures !ok ==> store == old(store) && history == old(history)
      ensures ok ==>
        && id == ObjectId(kind, old(store).next[kind])
        && store == Store(old(store).objects[id := value], old(store).next[kind := id.instance + 1])
        && history == if old(history) == [] then [old(store)] else old(history)
    {
      id := ObjectId(kind, 0);
      if kind !in store.next {
        return false, id;
      }
      EnsureRecord();
      id := ObjectId(kind, store.next[kind]);
      var u := stack[|stack| - 1];
      var u' := u.(newIds := u.newIds + {id});
      if kind !in u.oldNext {
        u' := u'.(oldNext := u.oldNext[kind := id.instance]);
      }
      var s := Store(store.objects[id := value], store.next[kind := id.instance + 1]);
      CreateTracks(u, u', history[|history| - 1], store, s, id, value);
      SetLast(u', s);
      ok := true;
    }

    /** `on_modify`, then `modify`. */
    method Modify(id: ObjectId, value: O)
      requires Valid() && id in store.objects
      modifies this
      ensures Valid() && activeSessions == old(activeSessions) && maxSize == old(maxSize)
      ensures store == old(store).(objects := old(store).objects[id := value])
      ensures history == if old(history) == [] then [old(store)] else old(history)
    {
      EnsureRecord();
      var u := stack[|stack| - 1];
      var u' := if id in u.newIds || id in u.oldValues then u
          else u.(oldValues := u.oldValues[id := store.objects[id]]);
      var s := store.(objects := store.objects[id := value]);
      ModifyTracks(u, u', history[|history| - 1], store, s, id, value);
      SetLast(u', s);
    }

    /** `on_remove`, then `remove`. */
    method Remove(id: ObjectId)
      requires Valid() && id in store.objects
      modifies this
      ensures Valid() && activeSessions == old(activeSessions) && maxSize == old(maxSize)
      ensures store == old(store).(objects := old(store).objects - {id})
      ensures history == if old(history) == [] then [old(store)] else old(history)
    {
      EnsureRecord();
      var u := stack[|stack| - 1];
      var u' := u;
      if id in u.newIds {
        u' := u.(newIds := u.newIds - {id});
      } else if id in u.oldValues {
        u' := u.(removed := u.removed[id := u.oldValues[id]], oldValues := u.oldValues - {id});
      } else if id !in u.removed {
        u' := u.(removed := u.removed[id := store.objects[id]]);
      }
      var s := store.(objects := store.objects - {id});
      RemoveTracks(u, u', history[|history| - 1], store, s, id);
      SetLast(u', s);
    }

    /** `start_undo_session`: the oldest records go first when there are too many. */
    method StartSession()
      requires Valid()
      modifies this
      ensures Valid() && store == old(store) && activeSessions == old(activeSessions) + 1
      ensures maxSize == old(maxSize) && history == Newest(old(history), maxSize) + [store]
      ensures var kept := |history| - 1;
              && kept <= maxSize && kept <= |old(history)| && (kept < |old(history)| ==> kept == maxSize)
              && history[..kept] == old(history)[|old(history)| - kept..] && history[kept] == store
    {
      ghost var was := history;
      while |stack| > maxSize
        invariant Valid() && |history| <= |was|
        invariant history == was[|was| - |history|..]
        invariant |history| < |was| ==> |history| >= maxSize
        invariant store == old(store) && activeSessions == old(activeSessions) && maxSize == old(maxSize)
        decreases |stack|
      {
        LayeredCut(stack, history, store, 1);
        stack, history := stack[1..], history[1..];
      }
      EmptyRecordTracks(store);
      LayeredPush(stack, history, EmptyRecord(), store, store);
      stack, history := stack + [EmptyRecord()], history + [store];
      activeSessions := activeSessions + 1;
    }

    /** Plays the last record back: values, new objects, counters, removed objects, in this order. */
    method PlayBack(u: UndoState<O>)
      modifies this`store
      ensures store == Revert(u, old(store))
    {
      var objects := Overwrite(store.objects, u.oldValues);
      objects := EraseAll(objects, u.newIds);
      var next := Overwrite(store.next, u.oldNext);
      objects := Overwrite(objects, u.removed);
      store := Store(objects, next);
    }

    method DropLast()
      requires Valid() && stack != []
      modifies this`stack, this`store, this`history
      ensures Valid() && store == old(history)[|old(history)| - 1]
      ensures history == old(history)[..|old(history)| - 1]
    {
      var n := |stack| - 1;
      LayeredCut(stack, history, store, n);
      RevertRestores(stack[n], history[n], store);
      PlayBack(stack[n]);
      stack, history := stack[..n], history[..n];
    }

    /** `undo`: the store is again what it was when the session started. */
    method Undo() returns (ok: bool)
      requires Valid() && (activeSessions > 0 ==> stack != [])
      modifies this
      ensures Valid() && maxSize == old(maxSize)
      ensures ok <==> old(activeSessions) > 0
      ensures ok ==> store == old(history)[|old(history)| - 1] && history == old(history)[..|old(history)| - 1]
                     && activeSessions == old(activeSessions) - 1
      ensures !ok ==> store == old(store) && history == old(history) && activeSessions == old(activeSessions)
    {
      if activeSessions == 0 {
        return false;
      }
      DropLast();
      activeSessions := activeSessions - 1;
      return true;
    }

    /** `pop_commit`: the same for the last committed session, when none is active. */
    method PopCommit() returns (ok: bool)
      requires Valid()
      modifies this
      ensures Valid() && maxSize == old(maxSize) && activeSessions == old(activeSessions)
      ensures ok <==> old(activeSessions) == 0 && old(stack) != []
      ensures ok ==> store == old(history)[|old(history)| - 1] && history == old(history)[..|old(history)| - 1]
      ensures !ok ==> store == old(store) && history == old(history)
    {
      if activeSessions > 0 || stack == [] {
        return false;
      }
      DropLast();
      return true;
    }

    method Commit() returns (ok: bool)
      requires Valid()
      modifies this`activeSessions
      ensures Valid()
      ensures ok <==> old(activeSessions) > 0
      ensures activeSessions == if ok then old(activeSessions) - 1 else old(activeSessions)
    {
      if activeSessions == 0 {
        return false;
      }
      activeSessions := activeSessions - 1;
      return true;
    }

    /**
     `merge`: the store stays, and the session's starting point is forgotten, so that the next
     undo brings back the store in which the enclosing session started.
     */
    method Merge() returns (ok: bool)
      requires Valid()
      modifies this
      ensures Valid() && store == old(store) && maxSize == old(maxSize)
      ensures ok <==> old(activeSessions) > 0 && (|old(stack)| > 1 || (|old(stack)| == 1 && old(activeSessions) == 1))
      ensures ok ==> history == old(history)[..|old(history)| - 1] && activeSessions == old(activeSessions) - 1
      ensures !ok ==> history == old(history) && activeSessions == old(activeSessions)
    {
      if activeSessions == 0 {
        return false;
      }
      if activeSessions == 1 && |stack| == 1 {
        stack, history, activeSessions := [], [], 0;
        return true;
      }
      if |stack| < 2 {
        return false;
      }
      var n := |stack| - 2;
      LayeredCut(stack, history, store, n);
      LayeredCut(stack, history, store, n + 1);
      var m := MergeRecords(stack[n], stack[n + 1]);
      MergeComposes(stack[n], stack[n + 1], history[n], history[n + 1], store);
      LayeredPush(stack[..n], history[..n], m, history[n], store);
      stack, history := stack[..n] + [m], history[..n] + [history[n]];
      activeSessions := activeSessions - 1;
      return true;
    }

    /** One change; false stands for the exception on an unknown index or object. */
    method Apply(c: Change<O>) returns (ok: bool)
      requires Valid() && stack != []
      modifies this
      ensures Valid() && history == old(history) && maxSize == old(maxSize)
      ensures activeSessions == old(activeSessions)
      ensures ok <==> After(old(store), c).Some?
      ensures store == if ok then After(old(store), c).value else old(store)
    {
      match c
      case CreateObject(kind, value) =>
        var id;
        ok, id := Create(kind, value);
      case ModifyObject(id, value) =>
        ok := id in store.objects;
        if ok {
          Modify(id, value);
        }
      case RemoveObject(id) =>
        ok := id in store.objects;
        if ok {
          Remove(id);
        }
    }

    /**
     How a block is applied: in a session that is committed at the end, and undone when a change
     throws. A failed block leaves no trace; `PopCommit` can take an applied one back.
     */
    method ApplyInSession(changes: seq<Change<O>>) returns (ok: bool)
      requires Valid()
      modifies this
      ensures Valid() && activeSessions == old(activeSessions) && maxSize == old(maxSize)
      ensures ok <==> AfterAll(old(store), changes).Some?
      ensures store == if ok then AfterAll(old(store), changes).value else old(store)
      ensures history == Newest(old(history), maxSize) + if ok then [old(store)] else []
    {
      StartSession();
      ghost var atStart := history;
      for i := 0 to |changes|
        invariant Valid() && history == atStart && activeSessions == old(activeSessions) + 1 && maxSize == old(maxSize)
        invariant AfterAll(old(store), changes[..i]) == Some(store)
      {
        assert changes[..i + 1][..i] == changes[..i];
        var done := Apply(changes[i]);
        if !done {
          FailureLasts(old(store), changes, i + 1);
          var undone := Undo();
          return false;
        }
      }
      assert changes[..|changes|] == changes;
      var committed := Commit();
      return true;
    }
  }

  datatype Change<O> = CreateObject(kind: nat, value: O) | ModifyObject(id: ObjectId,
                                                                        value: O) | RemoveObject(id: ObjectId)

  /** The store after a change; `None` for the exception on an unknown index or object. */
  function After<O>(s: Store<O>, c: Change<O>): Option<Store<O>> {
    match c
    case CreateObject(kind, value) =>
      if kind !in s.next then None
      else Some(Store(s.objects[ObjectId(kind, s.next[kind]) := value], s.next[kind := s.next[kind] + 1]))
    case ModifyObject(id, value) => if id in s.objects then Some(s.(objects := s.objects[id := value])) else None
    case RemoveObject(id) => if id in s.objects then Some(s.(objects := s.objects - {id})) else None
  }

  /** The store after all of the changes, if none of them throws. */
  function AfterAll<O>(s: Store<O>, cs: seq<Change<O>>): Option<Store<O>> {
    if cs == [] then Some(s)
    else
      match AfterAll(s, cs[..|cs| - 1])
      case None => None
      case Some(was) => After(was, cs[|cs| - 1])
  }

  lemma {:induction false} FailureLasts<O>(s: Store<O>, cs: seq<Change<O>>, n: nat)
    requires n <= |cs| && AfterAll(s, cs[..n]).None?
    ensures AfterAll(s, cs).None?
    decreases |cs|
  {
    if n == |cs| {
      assert cs[..n] == cs;
    } else {
      assert cs[..|cs| - 1][..n] == cs[..n];
      FailureLasts(s, cs[..|cs| - 1], n);
    }
  }

  /** What `start_undo_session` leaves of the older sessions. */
  function Newest<T>(older: seq<T>, max: nat): seq<T> {
    if |older| > max then older[|older| - max..] else older
  }

  lemma {:induction false} CreateTracks<O>(u: UndoState<O>, u': UndoState<O>, was: Store<O>, now: Store<O>,
                                           now': Store<O>, id: ObjectId, v: O)
    requires Tracks(u, was, now) && id.kind in now.next && id.instance == now.next[id.kind]
    requires now' == Store(now.objects[id := v], now.next[id.kind := id.instance + 1])
    requires u' == u.(newIds := u.newIds
                      + {id}, oldNext := if id.kind in u.oldNext then u.oldNext else u.oldNext[id.kind := id.instance])
    ensures Tracks(u', was, now')
  {
    forall i
      ensures TracksObject(u', was, now', i)
    {
      assert TracksObject(u, was, now, i);
      assert TracksNext(u, was, now, id.kind);
    }
    forall kind
      ensures TracksNext(u', was, now', kind)
    {
      assert TracksNext(u, was, now, kind);
    }
  }

  lemma {:induction false} ModifyTracks<O>(u: UndoState<O>, u': UndoState<O>, was: Store<O>, now: Store<O>,
                                           now': Store<O>, id: ObjectId, v: O)
    requires Tracks(u, was, now) && id in now.objects
    requires now' == now.(objects := now.objects[id := v])
    requires u' == if id in u.newIds || id in u.oldValues then u
             else u.(oldValues := u.oldValues[id := now.objects[id]])
    ensures Tracks(u', was, now')
  {
    forall i
      ensures TracksObject(u', was, now', i)
    {
      assert TracksObject(u, was, now, i);
    }
    forall kind
      ensures TracksNext(u', was, now', kind)
    {
      assert TracksNext(u, was, now, kind);
    }
  }

  lemma {:induction false} RemoveTracks<O>(u: UndoState<O>, u': UndoState<O>, was: Store<O>, now: Store<O>,
                                           now': Store<O>, id: ObjectId)
    requires Tracks(u, was, now) && id in now.objects && now' == now.(objects := now.objects - {id})
    requires u' == if id in u.newIds then u.(newIds := u.newIds - {id})
                   else if id in u.oldValues then u.(removed := u.removed[id := u.oldValues[id]], oldValues :=
                                                     u.oldValues - {id})
                   else if id in u.removed then u
                   else u.(removed := u.removed[id := now.objects[id]])
    ensures Tracks(u', was, now')
  {
    forall i
      ensures TracksObject(u', was, now', i)
    {
      assert TracksObject(u, was, now, i);
    }
    forall kind
      ensures TracksNext(u', was, now', kind)
    {
      assert TracksNext(u, was, now, kind);
    }
  }
}
