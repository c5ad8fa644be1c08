/**
  What a put, a get and a delete of the file cache come to while any number of other processes go on,
  in the terms of the one who asked: the content that was handed in, the file that comes back, and
  whether a deleted file can return.
 */
module FileService {
  import opened Basics
  import opened FileCopy
  import opened FileCache

  /** The process does nothing but go on with what it is doing. */
  predicate OnlyGoes(moves: seq<Move>, i: nat) {
    forall k | 0 <= k < |moves| && moves[k].who == i :: moves[k].action.Go?
  }

  /** How many steps of a run are the process's. */
  function Turns(moves: seq<Move>, i: nat): nat {
    if moves == [] then 0 else
      var n := |moves| - 1;
      Turns(moves[..n], i) + if moves[n].who == i then 1 else 0
  }

  function Ask(hash: Bytes -> string, w: World, i: nat, a: Action): World { Next(hash, w, Move(i, a)) }

  /** A storage in which nothing is being deleted, reached from a new one or not. */
  ghost predicate Serving(hash: Bytes -> string, w: World) { Good(hash, w) && Accounted(w) && AllKept(w) }

  lemma {:induction false} RunKeepsServing(hash: Bytes -> string, w: World, moves: seq<Move>)
    requires Serving(hash, w) && NoDelete(moves)
    ensures Serving(hash, Run(hash, w, moves)) && Keeps(w.store, Run(hash, w, moves).store)
    ensures |Run(hash, w, moves).processes| == |w.processes|
  {
    EveryRunIsGood(hash, w, moves);
    EveryRunIsAccounted(hash, w, moves);
    StoredStays(hash, w, moves);
    RunKeepsNumber(hash, w, moves);
  }

  lemma {:induction false} RunKeepsNumber(hash: Bytes -> string, w: World, moves: seq<Move>)
    ensures |Run(hash, w, moves).processes| == |w.processes|
  {
    if moves != [] { RunKeepsNumber(hash, w, moves[..|moves| - 1]); }
  }

  lemma AskIsRun(hash: Bytes -> string, w: World, i: nat, a: Action)
    ensures Ask(hash, w, i, a) == Run(hash, w, [Move(i, a)])
  {
    assert [Move(i, a)][..0] == [];
    assert Run(hash, w, []) == w;
  }

  lemma AskKeepsServing(hash: Bytes -> string, w: World, i: nat, a: Action)
    requires Serving(hash, w) && !a.Delete?
    ensures Serving(hash, Ask(hash, w, i, a)) && Keeps(w.store, Ask(hash, w, i, a).store)
    ensures |Ask(hash, w, i, a).processes| == |w.processes|
  {
    AskIsRun(hash, w, i, a);
    RunKeepsServing(hash, w, [Move(i, a)]);
  }

  // ---- Put ---------------------------------------------------------------------------------------

  /** The process puts this content, or has put it. */
  predicate IsPutting(p: Process, content: Bytes) {
    match p
    case Receiving(data, _, _) => data == content
    case Received(_, data, _) => data == content
    case Storing(_, data, _, _, _) => data == content
    case Committing(_, data, _, _, _) => data == content
    case Placing(_, data, _) => data == content
    case Stored(_, data) => data == content
    case _ => false
  }

  predicate HasTemp(s: Store, p: Process) { IsStoring(p) ==> Temp(p.temp) in s.backend }

  lemma PutGoesOn(hash: Bytes -> string, s: Store, p: Process, n: nat, content: Bytes)
    requires Honest(hash, p) && IsPutting(p, content) && HasTemp(s, p)
    ensures var t := Act(hash, s, p, Go(n));
      IsPutting(t.process, content) && Work(t.store, t.process) <= if Work(s, p) > 0 then Work(s, p) - 1 else 0
  {
    if !AtRest(p) { EveryStepIsProgress(hash, s, p, n); }
  }

  lemma AccountedHasTemp(w: World, i: nat)
    requires Accounted(w) && i < |w.processes|
    ensures HasTemp(w.store, w.processes[i])
  {
    var p := w.processes[i];
    if IsStoring(p) {
      assert p.temp in TempOf(w.processes[i]);
      assert Owns(w.processes, p.temp);
    }
  }

  lemma {:induction false} PutProgresses(hash: Bytes -> string, w: World, i: nat, content: Bytes, moves: seq<Move>)
    requires Serving(hash, w) && i < |w.processes| && w.processes[i] == Receiving(content, [], [])
    requires NoDelete(moves) && OnlyGoes(moves, i)
    ensures |Run(hash, w, moves).processes| == |w.processes|
    ensures var v := Run(hash, w, moves);
      && IsPutting(v.processes[i], content)
      && (Work(v.store, v.processes[i]) + Turns(moves, i) <= 3 * |content| + 5 || Work(v.store, v.processes[i]) <= 0)
  {
    if moves != [] {
      var n := |moves| - 1;
      var m := moves[n];
      PutProgresses(hash, w, i, content, moves[..n]);
      RunKeepsServing(hash, w, moves[..n]);
      var v := Run(hash, w, moves[..n]);
      if m.who == i {
        AccountedHasTemp(v, i);
        PutGoesOn(hash, v.store, v.processes[i], m.action.amount, content);
      }
    }
  }

  /**
    A put stores what was handed in: whatever the others do, failures included, as long as nothing is
    deleted, it ends with the digest of the content after 3n + 5 steps of its own, for n bytes, and the
    backend has a file of that digest, now and for ever.
   */
  lemma {:induction false} PutIsStored(hash: Bytes -> string, w: World, i: nat, content: Bytes, moves: seq<Move>)
    requires Serving(hash, w) && i < |w.processes| && AtRest(w.processes[i])
    requires NoDelete(moves) && OnlyGoes(moves, i) && 3 * |content| + 5 <= Turns(moves, i)
    ensures var v := Run(hash, Ask(hash, w, i, Put(content)), moves);
      && Serving(hash, v) && |v.processes| == |w.processes|
      && v.processes[i] == Stored(hash(content), content)
      && Digest(hash(content)) in v.store.backend && hash(v.store.backend[Digest(hash(content))]) == hash(content)
  {
    var u := Ask(hash, w, i, Put(content));
    AskKeepsServing(hash, w, i, Put(content));
    PutProgresses(hash, u, i, content, moves);
    RunKeepsServing(hash, u, moves);
    var v := Run(hash, u, moves);
    assert Honest(hash, v.processes[i]) && Kept(v.store, v.processes[i]);
  }

  /** While the backend has the file, a put of it writes nothing there, not even a temporary file. */
  predicate IsQuietPut(hash: Bytes -> string, p: Process, content: Bytes) {
    IsPutting(p, content) && Honest(hash, p) && !IsStoring(p)
  }

  lemma {:induction false} PutOfStoredIsQuiet(hash: Bytes -> string, s: Store, p: Process, content: Bytes, amounts: seq<nat>)
    requires IsQuietPut(hash, p, content) && Digest(hash(content)) in s.backend
    ensures Steps(hash, s, p, amounts).store.backend == s.backend && Steps(hash, s, p, amounts).store.next == s.next
    ensures IsQuietPut(hash, Steps(hash, s, p, amounts).process, content)
    decreases |amounts|
  {
    if amounts != [] {
      var t := Act(hash, s, p, Go(amounts[0]));
      if p.Receiving? && !(p.saved < p.fed) { PrefixIsWhole(p.saved, p.fed); if !(p.fed < p.data) { PrefixIsWhole(p.fed, p.data); } }
      PutOfStoredIsQuiet(hash, t.store, t.process, content, amounts[1..]);
    }
  }

  /** The temporary file of a put has what was copied to it so far. */
  ghost predicate CopiesAreThere(w: World) {
    forall i | 0 <= i < |w.processes| && IsStoring(w.processes[i]) :: HasCopy(w.store, w.processes[i])
  }

  predicate HasCopy(s: Store, p: Process) {
    IsStoring(p) && Temp(p.temp) in s.backend && s.backend[Temp(p.temp)] == p.copied
  }

  lemma CopyByStep(hash: Bytes -> string, s: Store, p: Process, a: Action, q: Process)
    requires Honest(hash, p) && (IsStoring(p) ==> HasCopy(s, p)) && KeepsTemps(a) && DeletesDigest(p)
    ensures var t := Act(hash, s, p, a); IsStoring(t.process) ==> HasCopy(t.store, t.process)
    ensures HasCopy(s, q) && q.temp !in TempOf(p) && q.temp < s.next ==> HasCopy(Act(hash, s, p, a).store, q)
  {
  }

  lemma {:induction false} EveryRunCopies(hash: Bytes -> string, w: World, moves: seq<Move>)
    requires Good(hash, w) && Accounted(w) && CopiesAreThere(w) && AllKeepTemps(moves)
    ensures CopiesAreThere(Run(hash, w, moves))
  {
    if moves != [] {
      var n := |moves| - 1;
      var m := moves[n];
      EveryRunCopies(hash, w, moves[..n]);
      EveryRunIsGood(hash, w, moves[..n]);
      EveryRunIsAccounted(hash, w, moves[..n]);
      assert KeepsTemps(m.action);
      if m.who < |Run(hash, w, moves[..n]).processes| { CopiesNext(hash, Run(hash, w, moves[..n]), m); }
    }
  }

  lemma CopiesNext(hash: Bytes -> string, w: World, m: Move)
    requires Good(hash, w) && Accounted(w) && CopiesAreThere(w) && KeepsTemps(m.action) && m.who < |w.processes|
    ensures CopiesAreThere(Next(hash, w, m))
  {
    var p, v := w.processes[m.who], Next(hash, w, m);
    assert IsStoring(p) ==> HasCopy(w.store, p);
    CopyByStep(hash, w.store, p, m.action, p);
    forall i | 0 <= i < |v.processes| && IsStoring(v.processes[i]) ensures HasCopy(v.store, v.processes[i]) {
      if i != m.who {
        var q := w.processes[i];
        assert HasCopy(w.store, q) && q.temp in TempOf(q);
        assert TempOf(q) !! TempOf(p);
        CopyByStep(hash, w.store, p, m.action, q);
      }
    }
  }

  // ---- Get ---------------------------------------------------------------------------------------

  /** At most so many steps are left of the get of `d`. */
  ghost predicate GetIsNear(s: Store, p: Process, d: string, size: nat, steps: int) {
    && IsGetting(s, p, d)
    && (p.LookingUp? ==> size + 2 <= steps)
    && (p.Fetching? ==> |p.source| - |p.copied| + 1 <= steps)
  }

  lemma GetGoesOn(hash: Bytes -> string, s: Store, p: Process, n: nat, d: string, size: nat, steps: int)
    requires Coherent(hash, s) && Honest(hash, p) && GetIsNear(s, p, d, size, steps)
    requires forall x | hash(x) == d :: |x| <= size
    ensures var t := Act(hash, s, p, Go(n)); GetIsNear(t.store, t.process, d, size, steps - 1)
  {
  }

  lemma {:induction false} GetProgresses(hash: Bytes -> string, w: World, j: nat, d: string, size: nat, moves: seq<Move>)
    requires Serving(hash, w) && j < |w.processes| && GetIsNear(w.store, w.processes[j], d, size, size + 2)
    requires NoDelete(moves) && OnlyGoes(moves, j) && forall x | hash(x) == d :: |x| <= size
    ensures |Run(hash, w, moves).processes| == |w.processes|
    ensures var v := Run(hash, w, moves); GetIsNear(v.store, v.processes[j], d, size, size + 2 - Turns(moves, j))
  {
    if moves != [] {
      var n := |moves| - 1;
      var m := moves[n];
      GetProgresses(hash, w, j, d, size, moves[..n]);
      RunKeepsServing(hash, w, moves[..n]);
      var v := Run(hash, w, moves[..n]);
      if m.who == j {
        GetGoesOn(hash, v.store, v.processes[j], m.action.amount, d, size, size + 2 - Turns(moves[..n], j));
      } else if m.who < |v.processes| {
        assert !m.action.Delete?;
        StoredByStep(hash, v.store, v.processes[m.who], m.action);
      }
    }
  }

  /**
    A get of a file that the backend has ends with a file of that digest, whatever the others do meanwhile;
    `size` bounds the files of that digest.
   */
  lemma {:induction false} GetIsServed(hash: Bytes -> string, w: World, j: nat, d: string, size: nat, moves: seq<Move>)
    requires Serving(hash, w) && j < |w.processes| && AtRest(w.processes[j])
    requires d != Tombstone && Digest(d) in w.store.backend && forall x | hash(x) == d :: |x| <= size
    requires NoDelete(moves) && OnlyGoes(moves, j) && size + 2 <= Turns(moves, j)
    ensures var v := Run(hash, Ask(hash, w, j, Get(d)), moves);
      |v.processes| == |w.processes| && v.processes[j].Got? && v.processes[j].digest == d && hash(v.processes[j].content) == d
  {
    var u := Ask(hash, w, j, Get(d));
    AskKeepsServing(hash, w, j, Get(d));
    GetProgresses(hash, u, j, d, size, moves);
    RunKeepsServing(hash, u, moves);
    assert Honest(hash, Run(hash, u, moves).processes[j]);
  }

  /** No other content has the digest of this one. */
  ghost predicate Unmistakable(hash: Bytes -> string, content: Bytes) { forall x | hash(x) == hash(content) :: x == content }

  /** What was put is got: by any process, at any time later, and through any interleaving. */
  lemma {:induction false} PutThenGet(hash: Bytes -> string, w: World, i: nat, content: Bytes, first: seq<Move>, j: nat, second: seq<Move>)
    requires Serving(hash, w) && i < |w.processes| && AtRest(w.processes[i])
    requires NoDelete(first) && OnlyGoes(first, i) && 3 * |content| + 5 <= Turns(first, i)
    requires j < |w.processes| && |Run(hash, Ask(hash, w, i, Put(content)), first).processes| == |w.processes|
    requires AtRest(Run(hash, Ask(hash, w, i, Put(content)), first).processes[j])
    requires NoDelete(second) && OnlyGoes(second, j) && |content| + 2 <= Turns(second, j)
    requires Unmistakable(hash, content) && hash(content) != Tombstone
    ensures var v := Run(hash, Ask(hash, w, i, Put(content)), first);
      |Run(hash, Ask(hash, v, j, Get(hash(content))), second).processes| == |w.processes| &&
      Run(hash, Ask(hash, v, j, Get(hash(content))), second).processes[j] == Got(hash(content), content)
  {
    PutIsStored(hash, w, i, content, first);
    GetIsServed(hash, Run(hash, Ask(hash, w, i, Put(content)), first), j, hash(content), |content|, second);
  }

  // ---- Requests that change nothing, and those that take files away -----------------------------

  /** What each request does at once, to a process at rest. */
  lemma RequestsMean(hash: Bytes -> string, s: Store, p: Process, d: string)
    requires AtRest(p)
    ensures d == "x" ==> forall a | a in {Get(d), Drop(d), Delete(Digest(d))} :: Act(hash, s, p, a) == Turn(s, p)
    ensures forall t | t == Act(hash, s, p, Get(d)) :: t.store == s
    ensures d != "x" && d in s.cache ==> Act(hash, s, p, Get(d)).process == Got(d, s.cache[d])
    ensures d != "x" ==> forall t | t in {Act(hash, s, p, Drop(d)), Act(hash, s, p, Delete(Digest(d)))} ::
      d !in t.store.cache && t.store.backend == s.backend && t.store.next == s.next &&
      forall e | e != d :: (e in t.store.cache <==> e in s.cache) && (e in s.cache ==> t.store.cache[e] == s.cache[e])
  {
  }

  /** A delete in the protocol: whatever the others do between its two steps, the file is not in the backend after. */
  lemma {:induction false} DeleteRemoves(hash: Bytes -> string, w: World, i: nat, name: Name, moves: seq<Move>, amount: nat)
    requires i < |w.processes| && AtRest(w.processes[i]) && name != Digest(Tombstone) && Turns(moves, i) == 0
    ensures |Run(hash, Ask(hash, w, i, Delete(name)), moves).processes| == |w.processes|
    ensures var v := Run(hash, Ask(hash, w, i, Delete(name)), moves);
      && v.processes[i] == Deleting(name)
      && Ask(hash, v, i, Go(amount)).processes == v.processes[i := Idle]
      && Ask(hash, v, i, Go(amount)).store.cache == v.store.cache
      && (forall n :: n in Ask(hash, v, i, Go(amount)).store.backend <==> n in v.store.backend && n != name)
      && (forall n | n in v.store.backend && n != name :: Ask(hash, v, i, Go(amount)).store.backend[n] == v.store.backend[n])
  {
    WaitsForItsTurn(hash, Ask(hash, w, i, Delete(name)), moves, i);
  }

  lemma {:induction false} WaitsForItsTurn(hash: Bytes -> string, w: World, moves: seq<Move>, i: nat)
    requires i < |w.processes| && Turns(moves, i) == 0
    ensures |Run(hash, w, moves).processes| == |w.processes| && Run(hash, w, moves).processes[i] == w.processes[i]
  {
    if moves != [] { WaitsForItsTurn(hash, w, moves[..|moves| - 1], i); }
  }

  // ---- Whether a deleted file stays away --------------------------------------------------------

  /** The process has the content of the file, and will publish it. */
  predicate Carries(hash: Bytes -> string, p: Process, d: string) {
    match p
    case Receiving(data, _, _) => hash(data) == d
    case Received(e, _, _) => e == d
    case Storing(e, _, _, _, _) => e == d
    case Committing(e, _, _, _, _) => e == d
    case Placing(e, _, _) => e == d
    case Fetching(e, _, _) => e == d
    case _ => false
  }

  /** The file is nowhere. */
  predicate Absent(hash: Bytes -> string, w: World, d: string) {
    && d !in w.store.cache && Digest(d) !in w.store.backend
    && forall i | 0 <= i < |w.processes| :: !Carries(hash, w.processes[i], d)
  }

  predicate PutsNo(hash: Bytes -> string, moves: seq<Move>, d: string) {
    forall k | 0 <= k < |moves| && moves[k].action.Put? :: hash(moves[k].action.content) != d
  }

  lemma AbsentByStep(hash: Bytes -> string, s: Store, p: Process, a: Action, d: string)
    requires Honest(hash, p) && !Carries(hash, p, d) && d !in s.cache && Digest(d) !in s.backend
    requires a.Put? ==> hash(a.content) != d
    ensures var t := Act(hash, s, p, a); d !in t.store.cache && Digest(d) !in t.store.backend && !Carries(hash, t.process, d)
  {
    if p.Receiving? && !(p.saved < p.fed) && !(p.fed < p.data) { PrefixIsWhole(p.fed, p.data); }
  }

  /** A file that is nowhere stays away until it is put again. */
  lemma {:induction false} AbsentStays(hash: Bytes -> string, w: World, moves: seq<Move>, d: string)
    requires Good(hash, w) && Absent(hash, w, d) && PutsNo(hash, moves, d)
    ensures Absent(hash, Run(hash, w, moves), d)
  {
    if moves != [] {
      var n := |moves| - 1;
      var m := moves[n];
      AbsentStays(hash, w, moves[..n], d);
      EveryRunIsGood(hash, w, moves[..n]);
      var v := Run(hash, w, moves[..n]);
      if m.who < |v.processes| {
        assert m.action.Put? ==> hash(m.action.content) != d;
        AbsentByStep(hash, v.store, v.processes[m.who], m.action, d);
      }
    }
  }

  /** And who asks for it is told that it is missing. */
  lemma {:induction false} AbsentIsMissing(hash: Bytes -> string, w: World, j: nat, d: string, moves: seq<Move>)
    requires Good(hash, w) && Absent(hash, w, d) && j < |w.processes| && AtRest(w.processes[j]) && d != Tombstone
    requires PutsNo(hash, moves, d) && OnlyGoes(moves, j)
    ensures |Run(hash, Ask(hash, w, j, Get(d)), moves).processes| == |w.processes|
    ensures Run(hash, Ask(hash, w, j, Get(d)), moves).processes[j] == if Turns(moves, j) == 0 then LookingUp(d) else Missing(d)
  {
    if moves != [] {
      var n := |moves| - 1;
      AbsentIsMissing(hash, w, j, d, moves[..n]);
      AbsentAfterAsking(hash, w, j, d, moves[..n]);
      LookedUpInVain(hash, Run(hash, Ask(hash, w, j, Get(d)), moves[..n]), j, d, moves[n], Turns(moves[..n], j) == 0);
    }
  }

  lemma AbsentAfterAsking(hash: Bytes -> string, w: World, j: nat, d: string, moves: seq<Move>)
    requires Good(hash, w) && Absent(hash, w, d) && PutsNo(hash, moves, d)
    ensures Absent(hash, Run(hash, Ask(hash, w, j, Get(d)), moves), d)
  {
    AskIsRun(hash, w, j, Get(d));
    EveryRunIsGood(hash, w, [Move(j, Get(d))]);
    AbsentStays(hash, w, [Move(j, Get(d))], d);
    AbsentStays(hash, Ask(hash, w, j, Get(d)), moves, d);
  }

  lemma LookedUpInVain(hash: Bytes -> string, w: World, j: nat, d: string, m: Move, waiting: bool)
    requires j < |w.processes| && w.processes[j] == (if waiting then LookingUp(d) else Missing(d))
    requires Digest(d) !in w.store.backend && (m.who == j ==> m.action.Go?)
    ensures |Next(hash, w, m).processes| == |w.processes|
    ensures Next(hash, w, m).processes[j] == if waiting && m.who != j then LookingUp(d) else Missing(d)
  {
  }

  lemma {:induction false} RunFromNext(hash: Bytes -> string, w: World, m: Move, moves: seq<Move>)
    ensures Run(hash, w, [m] + moves) == Run(hash, Next(hash, w, m), moves)
  {
    if moves == [] {
      AskIsRun(hash, w, m.who, m.action);
      assert [m] + moves == [m];
    } else {
      var n := |moves| - 1;
      assert ([m] + moves)[..n + 1] == [m] + moves[..n];
      RunFromNext(hash, w, m, moves[..n]);
    }
  }

  lemma CarriedGoesOn(hash: Bytes -> string, s: Store, p: Process, n: nat, d: string)
    requires Honest(hash, p) && Carries(hash, p, d) && HasTemp(s, p)
    ensures var t := Act(hash, s, p, Go(n));
      d in t.store.cache || (Carries(hash, t.process, d) && 0 <= Work(t.store, t.process) < Work(s, p))
  {
    EveryStepIsProgress(hash, s, p, n);
    if p.Receiving? && !(p.saved < p.fed) && !(p.fed < p.data) { PrefixIsWhole(p.fed, p.data); }
  }

  /** Whoever carries the file can bring it back, whether it was deleted meanwhile or not. */
  lemma {:induction false} CarriedReturns(hash: Bytes -> string, w: World, i: nat, d: string) returns (moves: seq<Move>)
    requires Good(hash, w) && Accounted(w) && i < |w.processes| && Carries(hash, w.processes[i], d)
    ensures PutsNo(hash, moves, d) && d in Run(hash, w, moves).store.cache
    decreases Work(w.store, w.processes[i])
  {
    var m := Move(i, Go(1));
    var v := Next(hash, w, m);
    AccountedHasTemp(w, i);
    CarriedGoesOn(hash, w.store, w.processes[i], 1, d);
    if d in v.store.cache {
      moves := [m];
      AskIsRun(hash, w, i, Go(1));
    } else {
      ActIsHonest(hash, w.store, w.processes[i], Go(1));
      AccountedNext(hash, w, m);
      var rest := CarriedReturns(hash, v, i, d);
      moves := [m] + rest;
      RunFromNext(hash, w, m, rest);
    }
  }

  /**
    A file that nobody puts again can be seen at some later time if and only if it is in the cache or the
    backend now, or some process is still storing or fetching it: deleting it does not stop those.
   */
  lemma {:induction false} AbsentIff(hash: Bytes -> string, w: World, d: string)
    requires Good(hash, w) && Accounted(w)
    ensures Absent(hash, w, d) <==>
      forall moves | PutsNo(hash, moves, d) ::
        d !in Run(hash, w, moves).store.cache && Digest(d) !in Run(hash, w, moves).store.backend
  {
    if Absent(hash, w, d) {
      forall moves | PutsNo(hash, moves, d) ensures Absent(hash, Run(hash, w, moves), d) { AbsentStays(hash, w, moves, d); }
    } else if d !in w.store.cache && Digest(d) !in w.store.backend {
      var i :| 0 <= i < |w.processes| && Carries(hash, w.processes[i], d);
      var moves := CarriedReturns(hash, w, i, d);
    } else {
      assert PutsNo(hash, [], d) && Run(hash, w, []) == w;
    }
  }

  /** A storage at rest that has the empty file. */
  function WithEmptyFile(hash: Bytes -> string): World {
    World(Store(map[], map[Digest(hash([])) := []], 0), [Idle, Idle], {})
  }

  lemma EmptyFileIsServed(hash: Bytes -> string)
    ensures Serving(hash, WithEmptyFile(hash))
  {
    assert forall n: nat :: !Owns(WithEmptyFile(hash).processes, n);
  }

  lemma EmptyFileIsOpened(hash: Bytes -> string)
    requires hash([]) != Tombstone
    ensures var w := WithEmptyFile(hash);
      Ask(hash, Ask(hash, w, 0, Get(hash([]))), 0, Go(0)) == w.(processes := [Fetching(hash([]), [], []), Idle])
  {
    var w, d := WithEmptyFile(hash), hash([]);
    assert Ask(hash, w, 0, Get(d)) == w.(processes := [LookingUp(d), Idle]);
  }

  lemma RunOfThree(hash: Bytes -> string, w: World, a: Move, b: Move, c: Move)
    ensures Run(hash, w, [a, b, c]) == Next(hash, Next(hash, Next(hash, w, a), b), c)
  {
    RunFromNext(hash, w, a, [b, c]);
    RunFromNext(hash, Next(hash, w, a), b, [c]);
    AskIsRun(hash, Next(hash, Next(hash, w, a), b), c.who, c.action);
    assert [a] + [b, c] == [a, b, c] && [b] + [c] == [b, c];
  }

  /** For instance, a get that has opened the file when it is deleted puts it back into the cache. */
  lemma DeletedIsRevived(hash: Bytes -> string) returns (moves: seq<Move>)
    requires hash([]) != Tombstone
    ensures PutsNo(hash, moves, hash([])) && |moves| == 3
    ensures moves[..2] == [Move(1, Delete(Digest(hash([])))), Move(1, Go(0))]
    ensures hash([]) in Run(hash, Ask(hash, Ask(hash, WithEmptyFile(hash), 0, Get(hash([]))), 0, Go(0)), moves).store.cache
  {
    var d := hash([]);
    var a, b, c := Move(1, Delete(Digest(d))), Move(1, Go(0)), Move(0, Go(0));
    moves := [a, b, c];
    EmptyFileIsOpened(hash);
    var u := WithEmptyFile(hash).(processes := [Fetching(d, [], []), Idle]);
    assert Next(hash, u, a) == u.(processes := [Fetching(d, [], []), Deleting(Digest(d))]);
    assert Next(hash, Next(hash, u, a), b) == u.(store := Store(map[], map[], 0));
    RunOfThree(hash, u, a, b, c);
  }
}
