/** Whatever callers do to the state store, through whatever pointers: histories of commands, and contract execution. */
module Histories {
  import opened Basics
  import opened Accounts
  import opened StateStore

  /** What a caller can do. Handles are the pointers it has got hold of, in order. */
  datatype Command =
    | Get(a: Address)
    | New(record: Account)
    | Mutate(handle: nat, record: Account)
    | Put(a: Address, handle: nat)
    | Drop(a: Address)
    | Write(key: Bytes, value: Bytes)
    | Erase(key: Bytes)
    | Save
    | Back(id: int)

  /** What a caller is told. */
  datatype Event = Quiet | Issued(id: int) | Reverted(id: int, ok: bool)

  /** The store, the caller's pointers and everything behind them, at one moment. */
  datatype Moment = Moment(objects: Objects, heap: map<AccountObject, Account>, kv: map<Bytes, Bytes>,
                           saved: seq<Contents>, handles: seq<AccountObject>)

  ghost predicate Closed(m: Moment)
  {
    && (forall a :: a in m.objects ==> m.objects[a] in m.heap)
    && (forall i :: 0 <= i < |m.handles| ==> m.handles[i] in m.heap)
  }

  ghost function ContentsOf(m: Moment): Contents
    requires Closed(m)
  {
    Contents(map a | a in m.objects :: m.heap[m.objects[a]], m.kv)
  }

  // ----- what each command does, exactly -----

  /** The contents remembered under id are back, in objects nobody has seen before. */
  ghost predicate Restored(m: Moment, id: int, n: Moment)
  {
    && 0 <= id < |m.saved|
    && n == m.(objects := n.objects, heap := n.heap, kv := m.saved[id].kv, saved := m.saved[..id])
    && n.objects.Keys == m.saved[id].accounts.Keys && Unshared(n.objects)
    && (forall a :: a in n.objects ==>
          n.objects[a] !in m.heap && n.objects[a] in n.heap && n.heap[n.objects[a]] == m.saved[id].accounts[a])
    && (forall h :: h in m.heap ==> h in n.heap && n.heap[h] == m.heap[h])
  }

  ghost predicate Obeys(m: Moment, c: Command, e: Event, n: Moment)
    requires Closed(m)
  {
    match c
    case Get(a) =>
      e == Quiet && n == m.(handles := m.handles + if a in m.objects then [m.objects[a]] else [])
    case New(record) =>
      && e == Quiet && |n.handles| == |m.handles| + 1
      && var h := n.handles[|m.handles|];
         h !in m.heap && n == m.(heap := m.heap[h := record], handles := m.handles + [h])
    case Mutate(i, record) =>
      e == Quiet && n == if i < |m.handles| then m.(heap := m.heap[m.handles[i] := record]) else m
    case Put(a, i) =>
      e == Quiet && n == if i < |m.handles| then m.(objects := m.objects[a := m.handles[i]]) else m
    case Drop(a) => e == Quiet && n == m.(objects := m.objects - {a})
    case Write(key, value) => e == Quiet && n == m.(kv := m.kv[key := value])
    case Erase(key) => e == Quiet && n == m.(kv := m.kv - {key})
    case Save => e == Issued(|m.saved|) && n == m.(saved := m.saved + [ContentsOf(m)])
    case Back(id) =>
      if 0 <= id < |m.saved| then e == Reverted(id, true) && Restored(m, id, n)
      else e == Reverted(id, false) && n == m
  }

  lemma ObeysKeepsClosed(m: Moment, c: Command, e: Event, n: Moment)
    requires Closed(m) && Obeys(m, c, e, n)
    ensures Closed(n)
  {
    hide ContentsOf;
  }

  /** moments[i + 1] is what command i makes of moments[i]. */
  ghost predicate IsHistory(moments: seq<Moment>, commands: seq<Command>, events: seq<Event>)
  {
    && |moments| == |commands| + 1 && |events| == |commands|
    && (forall i :: 0 <= i < |moments| ==> Closed(moments[i]))
    && (forall i :: 0 <= i < |commands| ==> Obeys(moments[i], commands[i], events[i], moments[i + 1]))
  }

  // ----- reverting -----

  /** The command goes back to id or to an earlier one, if any is outstanding. */
  predicate GoesBelow(c: Command, id: int)
  {
    c.Back? && 0 <= c.id <= id
  }

  lemma SavedStep(m: Moment, c: Command, e: Event, n: Moment, k: nat)
    requires Closed(m) && Obeys(m, c, e, n) && k <= |m.saved| && !GoesBelow(c, k - 1)
    ensures k <= |n.saved| && n.saved[..k] == m.saved[..k]
  {
    hide ContentsOf;
  }

  /** What is remembered below position k survives while only later ids are gone back to. */
  lemma {:induction false} SavedStays(moments: seq<Moment>, commands: seq<Command>, events: seq<Event>, i: nat, j: nat, k: nat)
    requires IsHistory(moments, commands, events) && i <= j <= |commands| && k <= |moments[i].saved|
    requires forall x | i <= x < j :: !GoesBelow(commands[x], k - 1)
    ensures k <= |moments[j].saved| && moments[j].saved[..k] == moments[i].saved[..k]
    decreases j - i
  {
    hide Closed, Obeys;
    if i < j {
      SavedStays(moments, commands, events, i, j - 1, k);
      SavedStep(moments[j - 1], commands[j - 1], events[j - 1], moments[j], k);
    }
  }

  /**
   In any history of any commands, going back to the id that a Save issued succeeds and brings back
   exactly the contents at that Save, as long as no id at or below it was gone back to in between.
   */
  lemma RevertRestores(moments: seq<Moment>, commands: seq<Command>, events: seq<Event>, i: nat, j: nat)
    requires IsHistory(moments, commands, events) && i < j < |commands|
    requires commands[i].Save? && commands[j] == Back(|moments[i].saved|)
    requires forall x | i < x < j :: !GoesBelow(commands[x], |moments[i].saved|)
    ensures events[i] == Issued(|moments[i].saved|) && events[j] == Reverted(|moments[i].saved|, true)
    ensures Closed(moments[i]) && Closed(moments[j + 1])
    ensures ContentsOf(moments[j + 1]) == ContentsOf(moments[i])
    ensures moments[j + 1].saved == moments[i].saved
  {
    var id := |moments[i].saved|;
    assert Obeys(moments[i], commands[i], events[i], moments[i + 1]);
    SavedStays(moments, commands, events, i + 1, j, id + 1);
    assert Obeys(moments[j], commands[j], events[j], moments[j + 1]);
    var s := moments[j].saved[..id + 1];
    assert s == moments[i].saved + [ContentsOf(moments[i])];
    assert moments[j].saved[id] == s[id] && moments[j].saved[..id] == s[..id];
  }

  // ----- the store obeys -----

  /** The moment a store and a caller's pointers are in. */
  ghost function MomentOf(s: InMemoryState, handles: seq<AccountObject>): Moment
    reads s, s.handed
  {
    Moment(s.accounts, map h | h in s.handed :: h.record, s.kvstore, s.saved, handles)
  }

  ghost predicate Holds(s: InMemoryState, handles: seq<AccountObject>)
    reads s, s.kept
  {
    s.Valid() && forall i :: 0 <= i < |handles| ==> handles[i] in s.handed
  }

  lemma MomentFacts(s: InMemoryState, handles: seq<AccountObject>)
    requires Holds(s, handles)
    ensures Closed(MomentOf(s, handles)) && ContentsOf(MomentOf(s, handles)) == s.View()
  {
    forall a | a in s.accounts ensures s.accounts[a] in s.handed {
      assert s.accounts[a] in s.accounts.Values;
    }
  }

  /** The commands that only touch pointers and what is behind them. */
  method PointerStep(s: InMemoryState, c: Command, handles: seq<AccountObject>) returns (more: seq<AccountObject>)
    requires Holds(s, handles) && (c.Get? || c.New? || c.Mutate?)
    modifies s`handed, s.handed
    ensures Holds(s, more) && fresh(s.handed - old(s.handed)) && s.kept == old(s.kept)
    ensures Closed(old(MomentOf(s, handles))) && Obeys(old(MomentOf(s, handles)), c, Quiet, MomentOf(s, more))
  {
    MomentFacts(s, handles);
    more := handles;
    match c {
      case Get(a) =>
        var r := s.GetAccount(a);
        if r.Some? { more := handles + [r.value]; }
      case New(record) =>
        var acc := new AccountObject(record);
        s.handed := s.handed + {acc};
        more := handles + [acc];
      case Mutate(i, record) =>
        if i < |handles| {
          var h := handles[i];
          assert h in s.handed;
          h.record := record;
        }
    }
  }

  /** The commands that write to the store's own maps. */
  method WriteStep(s: InMemoryState, c: Command, handles: seq<AccountObject>)
    requires Holds(s, handles) && (c.Put? || c.Drop? || c.Write? || c.Erase?)
    modifies s
    ensures Holds(s, handles) && s.handed == old(s.handed) && s.kept == old(s.kept)
    ensures Closed(old(MomentOf(s, handles))) && Obeys(old(MomentOf(s, handles)), c, Quiet, MomentOf(s, handles))
  {
    MomentFacts(s, handles);
    match c {
      case Put(a, i) =>
        if i < |handles| {
          assert handles[i] in s.handed;
          s.SetAccount(a, handles[i]);
          assert s.handed == old(s.handed);
        }
      case Drop(a) => s.DeleteAccount(a);
      case Write(key, value) => s.SetBytes(key, value);
      case Erase(key) => s.DeleteBytes(key);
    }
  }

  method SaveStep(s: InMemoryState, handles: seq<AccountObject>) returns (id: int)
    requires Holds(s, handles)
    modifies s
    ensures Holds(s, handles) && s.handed == old(s.handed) && fresh(s.kept - old(s.kept))
    ensures Closed(old(MomentOf(s, handles))) && Obeys(old(MomentOf(s, handles)), Save, Issued(id), MomentOf(s, handles))
  {
    hide Records, Closed;
    MomentFacts(s, handles);
    id := s.TakeSnapshot();
  }

  method BackStep(s: InMemoryState, id: int, handles: seq<AccountObject>) returns (ok: bool)
    requires Holds(s, handles)
    modifies s
    ensures Holds(s, handles) && fresh(s.handed - old(s.handed)) && s.kept == old(s.kept)
    ensures Closed(old(MomentOf(s, handles))) && Obeys(old(MomentOf(s, handles)), Back(id), Reverted(id, ok), MomentOf(s, handles))
  {
    MomentFacts(s, handles);
    ghost var m := MomentOf(s, handles);
    ok := s.RevertToSnapshot(id);
  }

  /** One command, with whatever pointers the caller already holds. */
  method Step(s: InMemoryState, c: Command, handles: seq<AccountObject>) returns (e: Event, more: seq<AccountObject>)
    requires Holds(s, handles)
    modifies s, s.handed
    ensures Holds(s, more) && fresh(s.handed - old(s.handed)) && fresh(s.kept - old(s.kept))
    ensures Closed(old(MomentOf(s, handles))) && Obeys(old(MomentOf(s, handles)), c, e, MomentOf(s, more))
  {
    hide Closed, Obeys;
    e, more := Quiet, handles;
    if c.Get? || c.New? || c.Mutate? {
      more := PointerStep(s, c, handles);
    } else if c.Save? {
      var id := SaveStep(s, handles);
      e := Issued(id);
    } else if c.Back? {
      var ok := BackStep(s, c.id, handles);
      e := Reverted(c.id, ok);
    } else {
      WriteStep(s, c, handles);
    }
  }

  /** Whatever commands a caller gives, in whatever order, they are obeyed one after the other. */
  method Drive(s: InMemoryState, commands: seq<Command>) returns (events: seq<Event>, ghost moments: seq<Moment>)
    requires s.Valid()
    modifies s, s.handed
    ensures s.Valid() && IsHistory(moments, commands, events)
    ensures moments[0] == old(MomentOf(s, []))
    ensures s.View() == ContentsOf(moments[|commands|]) && s.saved == moments[|commands|].saved
  {
    hide Closed, Obeys;
    events, moments := [], [MomentOf(s, [])];
    var handles: seq<AccountObject> := [];
    MomentFacts(s, handles);
    for n := 0 to |commands|
      invariant Holds(s, handles)
      invariant forall h :: h in s.handed ==> h in old(s.handed) || fresh(h)
      invariant IsHistory(moments, commands[..n], events)
      invariant moments[0] == old(MomentOf(s, [])) && moments[n] == MomentOf(s, handles)
    {
      var e, more := Step(s, commands[n], handles);
      MomentFacts(s, more);
      HistoryGrows(moments, commands[..n], events, commands[n], e, MomentOf(s, more));
      assert commands[..n + 1] == commands[..n] + [commands[n]];
      events, handles, moments := events + [e], more, moments + [MomentOf(s, more)];
    }
    assert commands[..|commands|] == commands;
    MomentFacts(s, handles);
  }

  lemma HistoryGrows(moments: seq<Moment>, commands: seq<Command>, events: seq<Event>, c: Command, e: Event, n: Moment)
    requires IsHistory(moments, commands, events) && Closed(n) && Obeys(moments[|commands|], c, e, n)
    ensures IsHistory(moments + [n], commands + [c], events + [e])
  {
    hide Closed, Obeys;
  }

  /** Save, then any work that does not go below, then back: as if nothing had happened. */
  method SaveWorkBack(s: InMemoryState, work: seq<Command>) returns (events: seq<Event>)
    requires s.Valid() && forall i :: 0 <= i < |work| ==> !GoesBelow(work[i], |s.saved|)
    modifies s, s.handed
    ensures s.Valid() && s.View() == old(s.View()) && s.saved == old(s.saved)
    ensures |events| == |work| + 2 && events[0] == Issued(|old(s.saved)|)
    ensures events[|work| + 1] == Reverted(|old(s.saved)|, true)
  {
    hide Closed, Obeys, ContentsOf, Records;
    ghost var id := |s.saved|;
    var commands := [Save] + work + [Back(|s.snapshots|)];
    MomentFacts(s, []);
    ghost var moments;
    events, moments := Drive(s, commands);
    forall x | 0 < x < |work| + 1 ensures !GoesBelow(commands[x], id) {
      assert commands[x] == work[x - 1];
    }
    RevertRestores(moments, commands, events, 0, |work| + 1);
  }

  // ----- the commands decide -----

  /** Equal in everything a caller can observe: contents, memory, what is behind each handle, and what is shared with what. */
  ghost predicate Alike(m: Moment, n: Moment)
    requires Closed(m) && Closed(n)
  {
    && m.kv == n.kv && m.saved == n.saved && |m.handles| == |n.handles| && m.objects.Keys == n.objects.Keys
    && (forall a :: a in m.objects ==> m.heap[m.objects[a]] == n.heap[n.objects[a]])
    && (forall i :: 0 <= i < |m.handles| ==> m.heap[m.handles[i]] == n.heap[n.handles[i]])
    && (forall a, b | a in m.objects && b in m.objects :: m.objects[a] == m.objects[b] <==> n.objects[a] == n.objects[b])
    && (forall i, j | 0 <= i < |m.handles| && 0 <= j < |m.handles| ::
          m.handles[i] == m.handles[j] <==> n.handles[i] == n.handles[j])
    && (forall i, a | 0 <= i < |m.handles| && a in m.objects :: m.handles[i] == m.objects[a] <==> n.handles[i] == n.objects[a])
  }

  lemma AlikeContents(m: Moment, n: Moment)
    requires Closed(m) && Closed(n) && Alike(m, n)
    ensures ContentsOf(m) == ContentsOf(n)
  {
  }

  lemma AlikeGet(m: Moment, n: Moment, c: Command, m': Moment, n': Moment)
    requires Closed(m) && Closed(n) && Alike(m, n) && c.Get? && Obeys(m, c, Quiet, m') && Obeys(n, c, Quiet, n')
    requires Closed(m') && Closed(n')
    ensures Alike(m', n')
  {
  }

  lemma AlikeNew(m: Moment, n: Moment, c: Command, m': Moment, n': Moment)
    requires Closed(m) && Closed(n) && Alike(m, n) && c.New? && Obeys(m, c, Quiet, m') && Obeys(n, c, Quiet, n')
    requires Closed(m') && Closed(n')
    ensures Alike(m', n')
  {
  }

  lemma AlikeMutate(m: Moment, n: Moment, c: Command, m': Moment, n': Moment)
    requires Closed(m) && Closed(n) && Alike(m, n) && c.Mutate? && Obeys(m, c, Quiet, m') && Obeys(n, c, Quiet, n')
    requires Closed(m') && Closed(n')
    ensures Alike(m', n')
  {
  }

  lemma AlikePut(m: Moment, n: Moment, c: Command, m': Moment, n': Moment)
    requires Closed(m) && Closed(n) && Alike(m, n) && c.Put? && Obeys(m, c, Quiet, m') && Obeys(n, c, Quiet, n')
    requires Closed(m') && Closed(n')
    ensures Alike(m', n')
  {
  }

  lemma AlikeWrite(m: Moment, n: Moment, c: Command, m': Moment, n': Moment)
    requires Closed(m) && Closed(n) && Alike(m, n) && (c.Drop? || c.Write? || c.Erase?)
    requires Obeys(m, c, Quiet, m') && Obeys(n, c, Quiet, n') && Closed(m') && Closed(n')
    ensures Alike(m', n')
  {
  }

  lemma AlikeSave(m: Moment, n: Moment, e: Event, f: Event, m': Moment, n': Moment)
    requires Closed(m) && Closed(n) && Alike(m, n) && Obeys(m, Save, e, m') && Obeys(n, Save, f, n')
    requires Closed(m') && Closed(n')
    ensures e == f && Alike(m', n')
  {
    hide ContentsOf;
    AlikeContents(m, n);
  }

  lemma AlikeBack(m: Moment, n: Moment, id: int, e: Event, f: Event, m': Moment, n': Moment)
    requires Closed(m) && Closed(n) && Alike(m, n) && Obeys(m, Back(id), e, m') && Obeys(n, Back(id), f, n')
    requires Closed(m') && Closed(n')
    ensures e == f && Alike(m', n')
  {
  }

  lemma AlikeStep(m: Moment, n: Moment, c: Command, e: Event, f: Event, m': Moment, n': Moment)
    requires Closed(m) && Closed(n) && Alike(m, n) && Obeys(m, c, e, m') && Obeys(n, c, f, n')
    ensures Closed(m') && Closed(n') && e == f && Alike(m', n')
  {
    hide Closed, Alike, ContentsOf, Restored;
    ObeysKeepsClosed(m, c, e, m');
    ObeysKeepsClosed(n, c, f, n');
    match c
    case Get(_) => AlikeGet(m, n, c, m', n');
    case New(_) => AlikeNew(m, n, c, m', n');
    case Mutate(_, _) => AlikeMutate(m, n, c, m', n');
    case Put(_, _) => AlikePut(m, n, c, m', n');
    case Save => AlikeSave(m, n, e, f, m', n');
    case Back(id) => AlikeBack(m, n, id, e, f, m', n');
    case _ => AlikeWrite(m, n, c, m', n');
  }

  /** Two histories of the same commands from alike moments tell the caller the same and stay alike. */
  lemma {:induction false} HistoriesAgree(ms: seq<Moment>, es: seq<Event>, ns: seq<Moment>, fs: seq<Event>, cs: seq<Command>, j: nat)
    requires IsHistory(ms, cs, es) && IsHistory(ns, cs, fs) && Alike(ms[0], ns[0]) && j <= |cs|
    ensures Alike(ms[j], ns[j]) && forall i :: 0 <= i < j ==> es[i] == fs[i]
    ensures ContentsOf(ms[j]) == ContentsOf(ns[j])
  {
    hide Closed, Obeys, Alike, ContentsOf;
    if j > 0 {
      HistoriesAgree(ms, es, ns, fs, cs, j - 1);
      AlikeStep(ms[j - 1], ns[j - 1], cs[j - 1], es[j - 1], fs[j - 1], ms[j], ns[j]);
    }
    AlikeContents(ms[j], ns[j]);
  }

  // ----- contract execution -----

  datatype Outcome = Outcome(returnData: Bytes, events: seq<Bytes>, reverted: bool)

  /**
   The rollback wrapper of VM.Execute. The contract is any sequence of commands that does not go back
   to ids issued before it, with any result and any error. Its commands are obeyed from the contents
   it found; if it fails or reverts they leave no trace, and otherwise their contents stay.
   */
  method Execute(s: InMemoryState, contract: seq<Command>, outcome: Option<Outcome>, err: bool)
    returns (result: Option<Outcome>, failed: bool, ghost moments: seq<Moment>, ghost events: seq<Event>)
    requires s.Valid() && forall i :: 0 <= i < |contract| ==> !GoesBelow(contract[i], |s.saved|)
    modifies s, s.handed
    ensures s.Valid() && IsHistory(moments, contract, events)
    ensures ContentsOf(moments[0]) == old(s.View()) && moments[0].saved == old(s.saved) + [old(s.View())]
    ensures if err || (outcome.Some? && outcome.value.reverted) then
              && s.View() == old(s.View()) && s.saved == old(s.saved) && failed == err
              && result == (if outcome.Some? then Some(outcome.value.(events := [])) else None)
            else
              && result == outcome && !failed
              && s.View() == ContentsOf(moments[|contract|]) && s.saved == moments[|contract|].saved
              && old(s.saved) <= s.saved
  {
    hide Closed, Obeys, ContentsOf, Records;
    ghost var before, saved := s.View(), s.saved;
    var id := s.TakeSnapshot();
    MomentFacts(s, []);
    var told;
    told, moments := Drive(s, contract);
    events := told;
    SavedStays(moments, contract, events, 0, |contract|, id + 1);
    assert s.saved[..id + 1] == saved + [before];
    assert s.saved[id] == s.saved[..id + 1][id];
    assert s.saved[..id] == s.saved[..id + 1][..id] == saved;
    result, failed := outcome, err;
    if err || (outcome.Some? && outcome.value.reverted) {
      var ok := s.RevertToSnapshot(id);
      if !ok {
        return None, true, moments, events;
      }
      if result.Some? {
        result := Some(result.value.(events := []));
      }
    }
  }
}
