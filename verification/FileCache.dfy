/**
  The content-addressed file cache over a file-system backend, as a protocol: any number of processes,
  each of which puts, gets, drops or deletes files, in steps that interleave in any way.
 */
module FileCache {
  import opened Basics
  import opened FileCopy

  const Tombstone := "x"

  /**
    A name in the backend directory: a digest, or one that `create_file` made up for a temporary file,
    which starts with ".tmp." and so is no digest.
   */
  datatype Name = Digest(digest: string) | Temp(number: nat)

  type Directory = map<Name, Bytes>

  /** The cache, the backend directory and the number of the next temporary file. */
  datatype Store = Store(cache: map<string, Bytes>, backend: Directory, next: nat)

  /**
    Where a process is. The files it has open, and its temporary files outside the backend, are its own,
    whatever happens to their names.
   */
  datatype Process =
    | Idle
    /** A put: `fed` was read and digested, `saved` was written to the temporary file. */
    | Receiving(data: Bytes, fed: Bytes, saved: Bytes)
    | Received(digest: string, data: Bytes, saved: Bytes)
    /** Copying to a temporary file of the backend, and about to rename that one. */
    | Storing(digest: string, data: Bytes, saved: Bytes, copied: Bytes, temp: nat)
    | Committing(digest: string, data: Bytes, saved: Bytes, copied: Bytes, temp: nat)
    /** About to rename the temporary file into the cache. */
    | Placing(digest: string, data: Bytes, saved: Bytes)
    | Stored(digest: string, data: Bytes)
    /** A get that found nothing in the cache, and one that copies a file of the backend. */
    | LookingUp(digest: string)
    | Fetching(digest: string, source: Bytes, copied: Bytes)
    | Got(digest: string, content: Bytes)
    | Missing(digest: string)
    /** A delete that has dropped the file from the cache. */
    | Deleting(name: Name)

  datatype Action =
    | Put(content: Bytes)
    | Get(wanted: string)
    | Drop(dropped: string)
    | Delete(deleted: Name)
    /** The next step of what the process is doing, with the number of bytes that a read or a write takes. */
    | Go(amount: nat)
    /** The process fails; its temporary files are left behind. */
    | Fail

  datatype Turn = Turn(store: Store, process: Process)

  /** At least one byte and at most what there is. */
  function Taken(amount: nat, most: nat): (n: nat)
    requires 0 < most
    ensures 1 <= n <= most
  {
    if amount == 0 then 1 else if amount > most then most else amount
  }

  function More(copied: Bytes, source: Bytes, amount: nat): (r: Bytes)
    requires copied < source
    ensures copied < r <= source
  {
    source[..|copied| + Taken(amount, |source| - |copied|)]
  }

  /** Requests come to a process that is at rest; others are ignored. */
  predicate AtRest(p: Process) { p.Idle? || p.Stored? || p.Got? || p.Missing? }

  function Dropped(s: Store, name: Name): Store {
    if name.Digest? then s.(cache := s.cache - {name.digest}) else s
  }

  function Asked(s: Store, p: Process, a: Action): Turn {
    match a
    case Put(data) => Turn(s, Receiving(data, [], []))
    case Get(d) =>
      if d == Tombstone then Turn(s, p)
      else if d in s.cache then Turn(s, Got(d, s.cache[d])) else Turn(s, LookingUp(d))
    case Drop(d) => if d == Tombstone then Turn(s, p) else Turn(Dropped(s, Digest(d)), Idle)
    case Delete(n) => if n == Digest(Tombstone) then Turn(s, p) else Turn(Dropped(s, n), Deleting(n))
    case Go(_) => Turn(s, p)
    case Fail => Turn(s, Idle)
  }

  /** Writes to a file that may have lost its name. */
  function Written(files: Directory, temp: nat, content: Bytes): Directory {
    if Temp(temp) in files then files[Temp(temp) := content] else files
  }

  /** `commit_file` once the copy is complete: the temporary file has to be there still. */
  function Committed(s: Store, p: Process): Turn
    requires p.Storing?
  {
    if Digest(p.digest) !in s.backend then Turn(s, Committing(p.digest, p.data, p.saved, p.copied, p.temp))
    else if Temp(p.temp) !in s.backend then Turn(s, Idle)
    else Turn(s.(backend := s.backend - {Temp(p.temp)}), Placing(p.digest, p.data, p.saved))
  }

  function Renamed(s: Store, p: Process): Turn
    requires p.Committing?
  {
    if Temp(p.temp) !in s.backend then Turn(s, Idle)
    else Turn(s.(backend := (s.backend - {Temp(p.temp)})[Digest(p.digest) := p.copied]), Placing(p.digest, p.data, p.saved))
  }

  /** One step of a process that is at work. */
  function Advanced(hash: Bytes -> string, s: Store, p: Process, n: nat): Turn {
    match p
    case Receiving(data, fed, saved) =>
      if saved < fed then Turn(s, Receiving(data, fed, More(saved, fed, n)))
      else if fed < data then Turn(s, Receiving(data, More(fed, data, n), saved))
      else Turn(s, Received(hash(fed), data, saved))
    case Received(d, data, saved) =>
      if Digest(d) in s.backend then Turn(s, Placing(d, data, saved))
      else Turn(s.(backend := s.backend[Temp(s.next) := []], next := s.next + 1), Storing(d, data, saved, [], s.next))
    case Storing(d, data, saved, copied, temp) =>
      if copied < saved then
        var more := More(copied, saved, n);
        Turn(s.(backend := Written(s.backend, temp, more)), Storing(d, data, saved, more, temp))
      else Committed(s, p)
    case Committing(_, _, _, _, _) => Renamed(s, p)
    case Placing(d, data, saved) => Turn(s.(cache := s.cache[d := saved]), Stored(d, data))
    case LookingUp(d) =>
      if Digest(d) in s.backend then Turn(s, Fetching(d, s.backend[Digest(d)], [])) else Turn(s, Missing(d))
    case Fetching(d, source, copied) =>
      if copied < source then Turn(s, Fetching(d, source, More(copied, source, n)))
      else Turn(s.(cache := s.cache[d := copied]), Got(d, copied))
    case Deleting(name) => Turn(s.(backend := s.backend - {name}), Idle)
    case _ => Turn(s, p)
  }

  function Act(hash: Bytes -> string, s: Store, p: Process, a: Action): Turn {
    if a.Fail? then Turn(s, Idle)
    else if AtRest(p) then Asked(s, p, a)
    else if a.Go? then Advanced(hash, s, p, a.amount)
    else Turn(s, p)
  }

  /** `lost` has the temporary files of the puts that failed while they had one in the backend. */
  datatype World = World(store: Store, processes: seq<Process>, lost: set<nat>)

  /** A step of the world: one process takes one step. */
  datatype Move = Move(who: nat, action: Action)

  function TempOf(p: Process): set<nat> { if p.Storing? || p.Committing? then {p.temp} else {} }

  function Next(hash: Bytes -> string, w: World, m: Move): World {
    if m.who >= |w.processes| then w else
      var p := w.processes[m.who];
      var t := Act(hash, w.store, p, m.action);
      World(t.store, w.processes[m.who := t.process], if m.action.Fail? then w.lost + TempOf(p) else w.lost)
  }

  function Run(hash: Bytes -> string, w: World, moves: seq<Move>): World {
    if moves == [] then w else Next(hash, Run(hash, w, moves[..|moves| - 1]), moves[|moves| - 1])
  }

  // ---- Coherence ---------------------------------------------------------------------------------

  /** The cached files, and those of the backend that have a digest for a name, hash to their names. */
  ghost predicate Coherent(hash: Bytes -> string, s: Store) {
    && (forall d | d in s.cache :: hash(s.cache[d]) == d)
    && (forall d | Digest(d) in s.backend :: hash(s.backend[Digest(d)]) == d)
  }

  /** What a process holds is what it is about to publish under the name of its digest. */
  predicate Honest(hash: Bytes -> string, p: Process) {
    match p
    case Receiving(data, fed, saved) => saved <= fed <= data
    case Received(d, data, saved) => saved == data && hash(data) == d
    case Storing(d, data, saved, copied, _) => saved == data && hash(data) == d && copied <= saved
    case Committing(d, data, saved, copied, _) => saved == data && hash(data) == d && copied == saved
    case Placing(d, data, saved) => saved == data && hash(data) == d
    case Stored(d, data) => hash(data) == d
    case Fetching(d, source, copied) => hash(source) == d && copied <= source
    case Got(d, content) => hash(content) == d
    case _ => true
  }

  ghost predicate Good(hash: Bytes -> string, w: World) {
    Coherent(hash, w.store) && forall i | 0 <= i < |w.processes| :: Honest(hash, w.processes[i])
  }

  lemma PrefixIsWhole(a: Bytes, b: Bytes)
    requires a <= b && !(a < b)
    ensures a == b
  {
  }

  lemma AdvancedIsHonest(hash: Bytes -> string, s: Store, p: Process, n: nat)
    requires Coherent(hash, s) && Honest(hash, p)
    ensures Coherent(hash, Advanced(hash, s, p, n).store) && Honest(hash, Advanced(hash, s, p, n).process)
  {
    match p
    case Receiving(data, fed, saved) =>
      if !(saved < fed) { PrefixIsWhole(saved, fed); if !(fed < data) { PrefixIsWhole(fed, data); } }
    case Storing(d, data, saved, copied, _) => if !(copied < saved) { PrefixIsWhole(copied, saved); }
    case Fetching(d, source, copied) => if !(copied < source) { PrefixIsWhole(copied, source); }
    case _ =>
  }

  lemma ActIsHonest(hash: Bytes -> string, s: Store, p: Process, a: Action)
    requires Coherent(hash, s) && Honest(hash, p)
    ensures Coherent(hash, Act(hash, s, p, a).store) && Honest(hash, Act(hash, s, p, a).process)
  {
    if !AtRest(p) && a.Go? { AdvancedIsHonest(hash, s, p, a.amount); }
  }

  /** In every interleaving, every visible file hashes to its name, and so does every file that a get gives. */
  lemma {:induction false} EveryRunIsGood(hash: Bytes -> string, w: World, moves: seq<Move>)
    requires Good(hash, w)
    ensures Good(hash, Run(hash, w, moves))
  {
    if moves != [] {
      var n := |moves| - 1;
      EveryRunIsGood(hash, w, moves[..n]);
      var v, m := Run(hash, w, moves[..n]), moves[n];
      if m.who < |v.processes| { ActIsHonest(hash, v.store, v.processes[m.who], m.action); }
    }
  }

  // ---- Temporary files of the backend ------------------------------------------------------------

  ghost predicate Owns(ps: seq<Process>, n: nat) { exists i | 0 <= i < |ps| :: n in TempOf(ps[i]) }

  /** No two processes share a temporary file, and none has one that was lost. */
  ghost predicate Separate(ps: seq<Process>, lost: set<nat>) {
    && (forall i, j | 0 <= i < j < |ps| :: TempOf(ps[i]) !! TempOf(ps[j]))
    && (forall i | 0 <= i < |ps| :: TempOf(ps[i]) !! lost)
  }

  predicate DeletesDigest(p: Process) { p.Deleting? ==> p.name.Digest? }

  /** The temporary files are those of the puts that are storing, and those of the puts that failed then. */
  ghost predicate Accounted(w: World) {
    && (forall n: nat :: Temp(n) in w.store.backend <==> n in w.lost || Owns(w.processes, n))
    && (forall n: nat | Temp(n) in w.store.backend :: n < w.store.next)
    && Separate(w.processes, w.lost)
    && (forall i | 0 <= i < |w.processes| :: DeletesDigest(w.processes[i]))
  }

  predicate KeepsTemps(a: Action) { a.Delete? ==> a.deleted.Digest? }

  predicate AllKeepTemps(moves: seq<Move>) { forall i | 0 <= i < |moves| :: KeepsTemps(moves[i].action) }

  /** What one step does to the temporary files: its own may come, stay or go, the others stay. */
  lemma TempsAfter(hash: Bytes -> string, s: Store, p: Process, a: Action)
    requires DeletesDigest(p) && KeepsTemps(a) && (forall n | n in TempOf(p) :: Temp(n) in s.backend)
    requires forall n: nat | Temp(n) in s.backend :: n < s.next
    ensures var t := Act(hash, s, p, a);
      && DeletesDigest(t.process)
      && (TempOf(t.process) == TempOf(p) || TempOf(t.process) == {} || (TempOf(t.process) == {s.next} && TempOf(p) == {}))
      && (a.Fail? ==> TempOf(t.process) == {})
      && (forall n: nat :: Temp(n) in t.store.backend <==>
            (Temp(n) in s.backend && n !in TempOf(p)) || n in TempOf(t.process) || (a.Fail? && n in TempOf(p)))
      && (forall n: nat | Temp(n) in t.store.backend :: n < t.store.next)
  {
  }

  lemma AccountedNext(hash: Bytes -> string, w: World, m: Move)
    requires Accounted(w) && KeepsTemps(m.action) && m.who < |w.processes|
    ensures Accounted(Next(hash, w, m))
  {
    var p, v := w.processes[m.who], Next(hash, w, m);
    var t := Act(hash, w.store, p, m.action);
    forall n | n in TempOf(p) ensures Temp(n) in w.store.backend { assert Owns(w.processes, n); }
    TempsAfter(hash, w.store, p, m.action);
    forall i | 0 <= i < |w.processes| && i != m.who
      ensures TempOf(v.processes[i]) !! TempOf(t.process) && TempOf(v.processes[i]) !! TempOf(p) && TempOf(v.processes[i]) !! v.lost
    {
      OthersAreOlder(w, i);
    }
    forall n ensures Temp(n) in v.store.backend <==> n in v.lost || Owns(v.processes, n) {
      OwnedAfter(w.processes, m.who, t.process, n);
      assert Temp(n) in w.store.backend <==> n in w.lost || Owns(w.processes, n);
    }
    assert TempOf(t.process) !! v.lost;
  }

  lemma OthersAreOlder(w: World, i: nat)
    requires Accounted(w) && i < |w.processes|
    ensures w.store.next !in TempOf(w.processes[i])
  {
    forall n | n in TempOf(w.processes[i]) ensures n < w.store.next { assert Owns(w.processes, n); assert Temp(n) in w.store.backend; }
  }

  lemma OwnedAfter(ps: seq<Process>, who: nat, p: Process, n: nat)
    requires who < |ps| && forall i | 0 <= i < |ps| && i != who :: TempOf(ps[i]) !! TempOf(ps[who])
    ensures Owns(ps[who := p], n) <==> (Owns(ps, n) && n !in TempOf(ps[who])) || n in TempOf(p)
  {
    var qs := ps[who := p];
    if Owns(qs, n) {
      var i :| 0 <= i < |qs| && n in TempOf(qs[i]);
      if i != who { assert n in TempOf(ps[i]); }
    }
    if n in TempOf(p) { assert n in TempOf(qs[who]); }
    if Owns(ps, n) && n !in TempOf(ps[who]) {
      var i :| 0 <= i < |ps| && n in TempOf(ps[i]);
      assert n in TempOf(qs[i]);
    }
  }

  /** After any run in which nobody deletes temporary files, they are accounted for. */
  lemma {:induction false} EveryRunIsAccounted(hash: Bytes -> string, w: World, moves: seq<Move>)
    requires Accounted(w) && AllKeepTemps(moves)
    ensures Accounted(Run(hash, w, moves))
  {
    if moves != [] {
      var n := |moves| - 1;
      EveryRunIsAccounted(hash, w, moves[..n]);
      var v, m := Run(hash, w, moves[..n]), moves[n];
      assert KeepsTemps(m.action);
      if m.who < |v.processes| { AccountedNext(hash, v, m); }
    }
  }

  // ---- Durability --------------------------------------------------------------------------------

  /** The backend has what was stored. */
  predicate Kept(s: Store, p: Process) {
    match p
    case Placing(d, _, _) => Digest(d) in s.backend
    case Stored(d, _) => Digest(d) in s.backend
    case Deleting(_) => false
    case _ => true
  }

  predicate AllKept(w: World) { forall i | 0 <= i < |w.processes| :: Kept(w.store, w.processes[i]) }

  predicate NoDelete(moves: seq<Move>) { forall i | 0 <= i < |moves| :: !moves[i].action.Delete? }

  ghost predicate Keeps(s: Store, t: Store) { forall d | Digest(d) in s.backend :: Digest(d) in t.backend }

  lemma StoredByStep(hash: Bytes -> string, s: Store, p: Process, a: Action)
    requires Kept(s, p) && !a.Delete?
    ensures Keeps(s, Act(hash, s, p, a).store) && Kept(Act(hash, s, p, a).store, Act(hash, s, p, a).process)
  {
  }

  /** While nothing is deleted, the backend has every file that was ever stored. */
  lemma {:induction false} StoredStays(hash: Bytes -> string, w: World, moves: seq<Move>)
    requires AllKept(w) && NoDelete(moves)
    ensures AllKept(Run(hash, w, moves)) && Keeps(w.store, Run(hash, w, moves).store)
  {
    if moves != [] {
      var n := |moves| - 1;
      StoredStays(hash, w, moves[..n]);
      var v, m := Run(hash, w, moves[..n]), moves[n];
      assert !m.action.Delete?;
      if m.who < |v.processes| { StoredByStep(hash, v.store, v.processes[m.who], m.action); }
    }
  }

  /** In any such run, nobody who asks for a stored file is told that it is missing. */
  lemma {:induction false} StoredIsNeverMissed(hash: Bytes -> string, w: World, moves: seq<Move>, j: nat, d: string)
    requires AllKept(w) && NoDelete(moves) && Digest(d) in w.store.backend
    requires j < |w.processes| && w.processes[j] != Missing(d)
    ensures |Run(hash, w, moves).processes| == |w.processes| && Run(hash, w, moves).processes[j] != Missing(d)
  {
    if moves != [] {
      var n := |moves| - 1;
      StoredIsNeverMissed(hash, w, moves[..n], j, d);
      StoredStays(hash, w, moves[..n]);
    }
  }

  // ---- Progress ----------------------------------------------------------------------------------

  /** How many more steps a process may take. */
  function Work(s: Store, p: Process): int {
    match p
    case Receiving(data, fed, saved) => 3 * |data| - |fed| - |saved| + 5
    case Received(_, data, saved) => |saved| + 4
    case Storing(_, data, saved, copied, _) => |saved| - |copied| + 3
    case Committing(_, _, _, _, _) => 2
    case Placing(_, _, _) => 1
    case LookingUp(d) => if Digest(d) in s.backend then |s.backend[Digest(d)]| + 2 else 1
    case Fetching(_, source, copied) => |source| - |copied| + 1
    case Deleting(_) => 1
    case _ => 0
  }

  /** Every step brings a process nearer to its end, however little it reads or writes. */
  lemma EveryStepIsProgress(hash: Bytes -> string, s: Store, p: Process, n: nat)
    requires Honest(hash, p) && !AtRest(p)
    ensures var t := Advanced(hash, s, p, n); 0 <= Work(t.store, t.process) < Work(s, p)
  {
    match p
    case Receiving(data, fed, saved) =>
      if !(saved < fed) { PrefixIsWhole(saved, fed); if !(fed < data) { PrefixIsWhole(fed, data); } }
    case Storing(d, data, saved, copied, _) => if !(copied < saved) { PrefixIsWhole(copied, saved); }
    case Fetching(d, source, copied) => if !(copied < source) { PrefixIsWhole(copied, source); }
    case _ =>
  }

  /** A process that goes on by itself, reading and writing the given amounts. */
  function Steps(hash: Bytes -> string, s: Store, p: Process, amounts: seq<nat>): Turn
    decreases |amounts|
  {
    if amounts == [] then Turn(s, p) else
      var t := Act(hash, s, p, Go(amounts[0]));
      Steps(hash, t.store, t.process, amounts[1..])
  }

  /** A get of a file that the backend has: about to open it, copying it, or done. */
  ghost predicate IsGetting(s: Store, p: Process, d: string) {
    match p
    case LookingUp(e) => e == d && Digest(d) in s.backend
    case Fetching(e, _, _) => e == d
    case Got(e, _) => e == d
    case _ => false
  }

  /** Such a get ends, after a number of steps known from the start, with a file that has the digest. */
  lemma {:induction false} StoredIsGot(hash: Bytes -> string, s: Store, p: Process, d: string, amounts: seq<nat>)
    requires Coherent(hash, s) && Honest(hash, p) && IsGetting(s, p, d) && Work(s, p) <= |amounts|
    ensures var q := Steps(hash, s, p, amounts).process; q.Got? && q.digest == d && hash(q.content) == d
    decreases |amounts|
  {
    if amounts != [] {
      var t := Act(hash, s, p, Go(amounts[0]));
      ActIsHonest(hash, s, p, Go(amounts[0]));
      if !AtRest(p) { EveryStepIsProgress(hash, s, p, amounts[0]); }
      StoredIsGot(hash, t.store, t.process, d, amounts[1..]);
    }
  }

  // ---- The integrity check -----------------------------------------------------------------------

  /** The files that the check finds wrong: no name of a temporary file is a digest. */
  ghost function Wrong(hash: Bytes -> string, files: Directory): set<Name> {
    set n | n in files && (n.Temp? || hash(files[n]) != n.digest)
  }

  /** In a coherent store, those are exactly the temporary files: deleting them leaves all the others. */
  lemma WrongAreTemps(hash: Bytes -> string, s: Store)
    requires Coherent(hash, s)
    ensures forall n :: n in Wrong(hash, s.backend) <==> n in s.backend && n.Temp?
    ensures forall n :: n in s.backend - Wrong(hash, s.backend) <==> n in s.backend && n.Digest?
  {
    forall n | n in s.backend && n.Digest? ensures n !in Wrong(hash, s.backend) { assert n == Digest(n.digest); }
  }

  predicate IsStoring(p: Process) { p.Storing? || p.Committing? }

  /**
    After any run, with any failures, in which nobody deletes temporary files: the check finds nothing
    wrong if and only if no put is storing its file right now and none has failed while it did.
   */
  lemma {:induction false} CheckAfterRun(hash: Bytes -> string, w: World, moves: seq<Move>)
    requires Good(hash, w) && Accounted(w) && AllKeepTemps(moves)
    ensures var v := Run(hash, w, moves);
      Wrong(hash, v.store.backend) == {} <==> v.lost == {} && forall i | 0 <= i < |v.processes| :: !IsStoring(v.processes[i])
  {
    var v := Run(hash, w, moves);
    EveryRunIsGood(hash, w, moves);
    EveryRunIsAccounted(hash, w, moves);
    WrongAreTemps(hash, v.store);
    forall i | 0 <= i < |v.processes| && IsStoring(v.processes[i]) ensures Temp(v.processes[i].temp) in v.store.backend {
      assert v.processes[i].temp in TempOf(v.processes[i]);
      assert Owns(v.processes, v.processes[i].temp);
    }
    forall n | n in v.lost ensures Temp(n) in v.store.backend {}
    forall x | x in Wrong(hash, v.store.backend) ensures x.Temp? && (x.number in v.lost || Owns(v.processes, x.number)) {
      assert x == Temp(x.number);
    }
  }

  /** The state of a new storage. */
  function Fresh(n: nat): World { World(Store(map[], map[], 0), seq(n, _ => Idle), {}) }

  lemma FreshIsGood(hash: Bytes -> string, n: nat)
    ensures Good(hash, Fresh(n)) && Accounted(Fresh(n)) && AllKept(Fresh(n))
  {
  }

  /** A run that leaves the check unhappy: a put that fails while it copies to the backend. */
  lemma FailedPutIsReported(hash: Bytes -> string) returns (moves: seq<Move>)
    ensures var v := Run(hash, Fresh(1), moves);
      v.processes == [Idle] && v.lost == {0} && Wrong(hash, v.store.backend) == {Temp(0)}
  {
    var w := Fresh(1);
    var a, b, c, d := Move(0, Put([])), Move(0, Go(1)), Move(0, Go(1)), Move(0, Fail);
    moves := [a, b, c, d];
    var w1 := Next(hash, w, a);
    var w2 := Next(hash, w1, b);
    var w3 := Next(hash, w2, c);
    assert w1.processes == [Receiving([], [], [])] && w2.processes == [Received(hash([]), [], [])];
    assert w3.processes == [Storing(hash([]), [], [], [], 0)] && w3.store.backend == map[Temp(0) := []];
    RunOfFour(hash, w, a, b, c, d);
  }

  lemma RunOfFour(hash: Bytes -> string, w: World, a: Move, b: Move, c: Move, d: Move)
    ensures Run(hash, w, [a, b, c, d]) == Next(hash, Next(hash, Next(hash, Next(hash, w, a), b), c), d)
  {
    assert [a, b, c, d][..3] == [a, b, c] && [a, b, c][..2] == [a, b] && [a, b][..1] == [a] && [a][..0] == [];
    assert Run(hash, w, [a]) == Next(hash, w, a);
    assert Run(hash, w, [a, b]) == Next(hash, Next(hash, w, a), b);
    assert Run(hash, w, [a, b, c]) == Next(hash, Run(hash, w, [a, b]), c);
  }

  /** Deleting what the check finds wrong takes the file from a put that is storing, and the put fails. */
  lemma DeletedTempFailsPut(hash: Bytes -> string, s: Store, p: Process, n: nat)
    requires IsStoring(p) && Temp(p.temp) !in s.backend && (p.Storing? ==> p.copied == p.saved)
    ensures p.Committing? || Digest(p.digest) in s.backend ==> Advanced(hash, s, p, n) == Turn(s, Idle)
    ensures p.Storing? && Digest(p.digest) !in s.backend ==> Advanced(hash, s, p, n).process.Committing?
  {
  }

  /** The cache and the backend directory of one process that works alone. */
  class FileCacher {
    const hash: Bytes -> string
    var cache: map<string, Bytes>
    var backend: Directory

    constructor (hash: Bytes -> string, cache: map<string, Bytes>, backend: Directory)
      ensures this.hash == hash && this.cache == cache && this.backend == backend
    {
      this.hash, this.cache, this.backend := hash, cache, backend;
    }

    method Drop(name: Name)
      modifies this`cache
      ensures cache == if name.Temp? || name == Digest(Tombstone) then old(cache) else old(cache) - {name.digest}
    {
      if name.Digest? && name != Digest(Tombstone) { cache := cache - {name.digest}; }
    }

    method Delete(name: Name)
      modifies this
      ensures name == Digest(Tombstone) ==> unchanged(this)
      ensures name != Digest(Tombstone) ==> backend == old(backend) - {name}
      ensures name != Digest(Tombstone) ==> cache == if name.Temp? then old(cache) else old(cache) - {name.digest}
    {
      if name == Digest(Tombstone) { return; }
      Drop(name);
      backend := backend - {name};
    }

    /**
      `check_backend_integrity`: true if and only if nothing is wrong; what is wrong is deleted if that is
      asked for, and nothing else, but for a file with the name of the tombstone.
     */
    method CheckBackendIntegrity(chunkSize: nat, delete: bool) returns (clean: bool)
      requires 0 < chunkSize
      modifies this
      ensures clean <==> Wrong(hash, old(backend)) == {}
      ensures var gone := if delete then Wrong(hash, old(backend)) - {Digest(Tombstone)} else {};
        backend == old(backend) - gone && forall d :: d in cache <==> d in old(cache) && Digest(d) !in gone
      ensures forall d | d in cache :: cache[d] == old(cache)[d]
    {
      clean := true;
      ghost var wrong := Wrong(hash, backend);
      var left := backend.Keys;
      while left != {}
        invariant left <= old(backend).Keys && (clean <==> wrong <= left)
        invariant var gone := if delete then wrong - left - {Digest(Tombstone)} else {};
          backend == old(backend) - gone && forall d :: d in cache <==> d in old(cache) && Digest(d) !in gone
        invariant forall d | d in cache :: cache[d] == old(cache)[d]
        decreases left
      {
        var name :| name in left;
        var computed := Recompute(name, chunkSize);
        if name != Digest(computed) {
          if delete { Delete(name); }
          clean := false;
        }
        left := left - {name};
      }
    }

    method Recompute(name: Name, chunkSize: nat) returns (digest: string)
      requires 0 < chunkSize && name in backend
      ensures digest == hash(backend[name])
    {
      var file := new Source(backend[name]);
      digest := DigestOf(file, chunkSize, hash);
    }
  }

  /** After a check that deletes, nothing is wrong, unless a wrong file has the name of the tombstone. */
  lemma CheckedIsRight(hash: Bytes -> string, files: Directory)
    ensures Wrong(hash, files - (Wrong(hash, files) - {Digest(Tombstone)})) == {} <==>
            (Digest(Tombstone) in files ==> hash(files[Digest(Tombstone)]) == Tombstone)
  {
    var left := files - (Wrong(hash, files) - {Digest(Tombstone)});
    assert Digest(Tombstone) in files ==> Digest(Tombstone) in left && left[Digest(Tombstone)] == files[Digest(Tombstone)];
    if Wrong(hash, left) == {} { assert Digest(Tombstone) !in Wrong(hash, left); }
  }
}
