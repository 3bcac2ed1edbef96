// The request protocol of one memory object: vs_lock/vs_unlock turns, the reader, writer and
// asynchronous-write counters with their condition variables, and the message handlers that use
// them.  The object is a state machine: one step is what one thread does between two points where
// another thread can run, so a run of the machine is one interleaving of the handler threads, the
// device-reply threads and the kernel sending messages.

module VsProtocol {
  import opened Totals
  import opened Wrappers

  const SEQNO_MODULUS := 0x1_0000_0000
  const MAX_UREFS := 10000
  const NOBODY := -1

  datatype Kind = Init | Synchronize | DataRequest | DataReturn | Terminate | NoSenders

  // What threads wait for, each with a condition variable of its own.
  datatype Cond = Seqno | Readers | Writers | Async | Refs

  // Where a thread is.  Want* points are about to take the mutex; Test, Hold*, CheckReq and Commit
  // points own it; Sleep(c) is in c's wait set; Bcast(c) has released the mutex and still owes
  // condition_broadcast(c).
  datatype Pc =
    | Want(c: Cond) | Test(c: Cond) | Sleep(c: Cond) | Bcast(c: Cond)
    | CheckReq | DropReq | Commit | Free
    | Working(left: nat) | WantAdd(left: nat, size: nat) | HoldAdd(left: nat, size: nat)
    | WantFinish | HoldFinish
    | InFlight | WantDec | HoldDec
    | Done

  datatype Role = Handler(kind: Kind, bytes: nat) | Completion(size: nat)

  // A thread working for message number `num`: its handler, or the reply to one of the
  // asynchronous device writes that the handler started.
  datatype Actor = Actor(role: Role, num: nat, pc: Pc)

  // The fields of struct vstruct that the protocol uses, with `holder` the owner of its mutex,
  // `turn` the number of vs_unlock calls so far, and a note of the two fatal outcomes.
  datatype Vstruct = Vstruct(
    holder: int, seqno: nat, readers: int, writers: int, pending: int,
    controlPort: bool, controlRefs: int, nameRefs: int, turn: nat, freed: bool, panicked: bool)

  // `log` lists the kinds of the messages sent so far and index[n] is the actor handling message n.
  datatype State = State(internal: bool, vs: Vstruct, log: seq<Kind>, index: seq<nat>, actors: seq<Actor>)

  // What one step of one actor does: the new fields, its new program point, the wait set it wakes
  // and the actor it starts, if any.
  datatype Effect = Effect(vs: Vstruct, pc: Pc, wakes: Option<Cond>, spawn: Option<Actor>)

  datatype Choice = Go | Issue(size: nat) | WriteSync(size: nat) | GiveUp(size: nat)
  datatype Label = Act(i: nat, choice: Choice) | Deliver(kind: Kind, bytes: nat)

  // An internal object is created with its control port; an external one waits for Init.
  function Start(internal: bool): State {
    State(internal, Vstruct(NOBODY, 0, 0, 0, 0, internal, if internal then 1 else 0,
                            if internal then 1 else 0, 0, false, false), [], [], [])
  }

  function To(v: Vstruct, pc: Pc): Option<Effect> {
    Some(Effect(v, pc, None, None))
  }

  // mutex_lock: enabled only when nobody owns the mutex.
  function Acquire(v: Vstruct, i: nat, pc: Pc): Option<Effect> {
    if v.holder == NOBODY then To(v.(holder := i), pc) else None
  }

  // mutex_unlock, alone or as the first half of condition_wait.
  function Release(v: Vstruct, pc: Pc): Option<Effect> {
    To(v.(holder := NOBODY), pc)
  }

  // Whether the thread `a` need not wait for c.
  predicate Ready(v: Vstruct, a: Actor, c: Cond) {
    match c
    case Seqno => v.seqno == a.num % SEQNO_MODULUS
    case Readers => v.readers == 0
    case Writers => v.writers == 0
    case Async => v.pending <= 0
    case Refs => v.nameRefs != 0
  }

  // Where a handler of kind k goes when it has waited for c: vs_lock, then the waits its body makes.
  function AfterWait(k: Kind, c: Cond): Pc {
    match c
    case Seqno =>
      (match k
       case Init => Commit
       case Terminate => Test(Readers)
       case NoSenders => Test(Async)
       case _ => CheckReq)
    case Readers => Test(Writers)
    case Writers => Test(Async)
    case Async => if k.Terminate? then Test(Refs) else Commit
    case Refs => Commit
  }

  function AfterCheck(k: Kind): Pc {
    if k.DataRequest? then Test(Writers) else Commit
  }

  // What the handler does while it owns both the mutex and the turn, up to vs_unlock.
  function CommitEffect(v: Vstruct, k: Kind): Option<Effect> {
    if k.NoSenders? then
      if v.controlPort then To(v.(panicked := true), Done) else Release(v, Free)
    else if k.Init? && v.controlPort then To(v.(panicked := true), Done)
    else
      var w := v.(seqno := (v.seqno + 1) % SEQNO_MODULUS, turn := v.turn + 1);
      Release(match k
              case Init => w.(controlPort := true, controlRefs := 1, nameRefs := 1)
              case DataRequest => w.(readers := v.readers + 1)
              case DataReturn => w.(writers := v.writers + 1)
              case Terminate => w.(controlPort := false, controlRefs := 0, nameRefs := 0)
              case _ => w,
              Bcast(Seqno))
  }

  function AfterUnlock(role: Role): Pc {
    if role.Handler? && (role.kind.DataRequest? || role.kind.DataReturn?) then Working(role.bytes) else Done
  }

  // vs_cluster_read runs to its end; vs_cluster_write writes `left` more bytes, piece by piece,
  // asynchronously or not, and may give all the rest back early after an error.
  function WorkEffect(v: Vstruct, k: Kind, left: nat, choice: Choice): Option<Effect> {
    match choice
    case Go => if k.DataReturn? && left > 0 then None else To(v, WantFinish)
    case Issue(size) => if k.DataReturn? && 0 < size <= left then To(v, WantAdd(left, size)) else None
    case WriteSync(size) => if k.DataReturn? && 0 < size <= left then To(v, Working(left - size)) else None
    case GiveUp(size) => if k.DataReturn? && 0 < size == left then To(v, WantFinish) else None
  }

  function FinishEffect(v: Vstruct, k: Kind): Option<Effect> {
    if k.DataRequest? then
      Release(v.(readers := v.readers - 1), if v.readers - 1 == 0 then Bcast(Readers) else Done)
    else
      Release(v.(writers := v.writers - 1), if v.writers - 1 == 0 then Bcast(Writers) else Done)
  }

  // The step of the actor `a`, number i: None when it cannot move, otherwise its only effect.
  // Only a handler at work has more than one way to go.
  function EffectOf(v: Vstruct, i: nat, a: Actor, choice: Choice): Option<Effect> {
    if !choice.Go? && !a.pc.Working? then None
    else match a.role
    case Completion(size) => CompletionEffect(v, i, a.pc, size)
    case Handler(k, _) =>
      match a.pc
      case Want(c) => Acquire(v, i, Test(c))
      case Test(c) => if Ready(v, a, c) then To(v, AfterWait(k, c)) else Release(v, Sleep(c))
      case CheckReq => if v.controlRefs + 1 > MAX_UREFS then Release(v.(controlRefs := 1), DropReq)
                       else To(v.(controlRefs := v.controlRefs + 1), AfterCheck(k))
      case DropReq => Acquire(v, i, AfterCheck(k))
      case Commit => CommitEffect(v, k)
      case Free => To(v.(freed := true), Done)
      case Working(left) => WorkEffect(v, k, left, choice)
      case WantAdd(left, size) => Acquire(v, i, HoldAdd(left, size))
      case HoldAdd(left, size) =>
        Some(Effect(v.(pending := v.pending + size, holder := NOBODY), Working(if size <= left then left - size else 0),
                    None, Some(Actor(Completion(size), a.num, InFlight))))
      case WantFinish => Acquire(v, i, HoldFinish)
      case HoldFinish => FinishEffect(v, k)
      case Bcast(c) => Some(Effect(v, if c == Seqno then AfterUnlock(a.role) else Done, Some(c), None))
      case _ => None
  }

  // The reply to an asynchronous write: record the result, then vs_async_pending -= size.
  function CompletionEffect(v: Vstruct, i: nat, pc: Pc, size: nat): Option<Effect> {
    match pc
    case InFlight => To(v, WantDec)
    case WantDec => Acquire(v, i, HoldDec)
    case HoldDec => Release(v.(pending := v.pending - size), if v.pending - size == 0 then Bcast(Async) else Done)
    case Bcast(c) => Some(Effect(v, Done, Some(c), None))
    case _ => None
  }

  // condition_broadcast sends the sleepers back to taking the mutex.
  function Rouse(a: Actor, wakes: Option<Cond>): Actor {
    if wakes.Some? && a.pc == Sleep(wakes.value) then a.(pc := Want(wakes.value)) else a
  }

  function Apply(s: State, i: nat, e: Effect): State
    requires i < |s.actors|
  {
    s.(vs := e.vs,
       actors := seq(|s.actors|, k requires 0 <= k < |s.actors| =>
                       if k == i then s.actors[k].(pc := e.pc) else Rouse(s.actors[k], e.wakes))
                 + if e.spawn.Some? then [e.spawn.value] else [])
  }

  // The kernel's side of the interface: whether it holds the object open after the messages in
  // `log`, and which message it may send next.
  function Open(internal: bool, log: seq<Kind>): bool {
    if log == [] then internal
    else match log[|log| - 1]
      case Init => true
      case Terminate => false
      case _ => Open(internal, log[..|log| - 1])
  }

  predicate MaySend(internal: bool, log: seq<Kind>, k: Kind) {
    && (log == [] || !log[|log| - 1].NoSenders?)
    && (Open(internal, log) <==> !(k.Init? || k.NoSenders?))
  }

  function Send(s: State, k: Kind, bytes: nat): State {
    s.(actors := s.actors + [Actor(Handler(k, bytes), |s.log|, Want(Seqno))],
       log := s.log + [k], index := s.index + [|s.actors|])
  }

  // The successor of s under label l, if l is enabled.
  function Next(s: State, l: Label): Option<State> {
    match l
    case Act(i, choice) =>
      if i >= |s.actors| || s.vs.panicked then None
      else
        var e := EffectOf(s.vs, i, s.actors[i], choice);
        if e.None? then None else Some(Apply(s, i, e.value))
    case Deliver(k, bytes) =>
      if MaySend(s.internal, s.log, k) && |s.log| - s.vs.turn < SEQNO_MODULUS - 1 then Some(Send(s, k, bytes)) else None
  }

  ghost predicate Step(s: State, t: State) {
    exists l :: Next(s, l) == Some(t)
  }

  ghost predicate Run(run: seq<State>) {
    && run != []
    && run[0] in {Start(true), Start(false)}
    && forall k :: 0 <= k < |run| - 1 ==> Step(run[k], run[k + 1])
  }

  // ---------------------------------------------------------------- classes of program points

  predicate Holds(pc: Pc) {
    pc.Test? || pc.CheckReq? || pc.Commit? || pc.HoldAdd? || pc.HoldFinish? || pc.HoldDec?
  }

  // Waiting for c, in whichever of the three ways.
  predicate At(pc: Pc, c: Cond) {
    pc == Want(c) || pc == Test(c) || pc == Sleep(c)
  }

  predicate Queued(pc: Pc) {
    At(pc, Seqno)
  }

  // Owning the turn: past vs_lock and not yet past vs_unlock.
  predicate HasTurn(pc: Pc) {
    pc.CheckReq? || pc.DropReq? || pc.Commit? || ((pc.Want? || pc.Test? || pc.Sleep?) && pc.c != Seqno)
  }

  // Between vs_start_read or vs_start_write and the matching vs_finish.
  predicate Active(pc: Pc) {
    pc == Bcast(Seqno) || pc.Working? || pc.WantAdd? || pc.HoldAdd? || pc.WantFinish? || pc.HoldFinish?
  }

  // The program points an actor of the given role can be at.
  predicate Fits(role: Role, pc: Pc) {
    match role
    case Completion(_) => pc.InFlight? || pc.WantDec? || pc.HoldDec? || pc == Bcast(Async) || pc.Done?
    case Handler(k, _) =>
      match pc
      case Want(c) => Waits(k, c)
      case Test(c) => Waits(k, c)
      case Sleep(c) => Waits(k, c) && c != Refs
      case Bcast(c) => (match c
                        case Seqno => !k.NoSenders?
                        case Readers => k.DataRequest?
                        case Writers => k.DataReturn?
                        case _ => false)
      case CheckReq => k.Synchronize? || k.DataRequest? || k.DataReturn?
      case DropReq => k.Synchronize? || k.DataRequest? || k.DataReturn?
      case Commit => true
      case Free => k.NoSenders?
      case Working(_) => k.DataRequest? || k.DataReturn?
      case WantFinish => k.DataRequest? || k.DataReturn?
      case HoldFinish => k.DataRequest? || k.DataReturn?
      case WantAdd(left, size) => k.DataReturn? && 0 < size <= left
      case HoldAdd(left, size) => k.DataReturn? && 0 < size <= left
      case Done => true
      case _ => false
  }

  predicate Waits(k: Kind, c: Cond) {
    match c
    case Seqno => true
    case Readers => k.Terminate?
    case Writers => k.Terminate? || k.DataRequest?
    case Async => k.Terminate? || k.DataRequest? || k.NoSenders?
    case Refs => k.Terminate?
  }

  predicate IsHandler(a: Actor, k: Kind) {
    a.role.Handler? && a.role.kind == k
  }

  function ReaderWeight(a: Actor): int {
    if IsHandler(a, DataRequest) && Active(a.pc) then 1 else 0
  }

  function WriterWeight(a: Actor): int {
    if IsHandler(a, DataReturn) && Active(a.pc) then 1 else 0
  }

  function PendingWeight(a: Actor): int {
    if a.role.Completion? && (a.pc.InFlight? || a.pc.WantDec? || a.pc.HoldDec?) then a.role.size else 0
  }

  // Threads that can write the object's data: write handlers and device replies.
  predicate IsWrite(a: Actor) {
    a.role.Completion? || IsHandler(a, DataReturn)
  }

  // No thread of this write can touch the object's data any more.
  predicate WriteFinished(a: Actor) {
    WriterWeight(a) == 0 && PendingWeight(a) == 0 && !Queued(a.pc) && !HasTurn(a.pc)
  }

  // ---------------------------------------------------------------- the invariant

  ghost predicate MutexInv(s: State) {
    && (s.vs.holder == NOBODY || 0 <= s.vs.holder < |s.actors|)
    && forall i :: 0 <= i < |s.actors| ==> (Holds(s.actors[i].pc) <==> s.vs.holder == i)
  }

  // The place of an actor: which points it can be at, and who has had the turn.
  ghost predicate PlaceInv(v: Vstruct, a: Actor) {
    && Fits(a.role, a.pc)
    && (a.role.Completion? ==> a.role.size > 0 && a.num < v.turn)
    && (Queued(a.pc) ==> a.num >= v.turn)
    && (HasTurn(a.pc) ==> a.num == v.turn)
    && (!Queued(a.pc) && !HasTurn(a.pc) ==> if IsHandler(a, NoSenders) then a.num == v.turn else a.num < v.turn)
  }

  // What the owner of the turn has established and no other thread can undo while it sleeps.
  ghost predicate TurnInv(v: Vstruct, a: Actor) {
    && (IsHandler(a, Terminate) && HasTurn(a.pc) && !At(a.pc, Readers) ==> v.readers == 0)
    && (At(a.pc, Async) || At(a.pc, Refs) ==> v.writers == 0)
    && (At(a.pc, Refs) ==> v.pending == 0)
    && (a.pc.Commit? && (IsHandler(a, DataRequest) || IsHandler(a, Terminate) || IsHandler(a, NoSenders))
        ==> v.writers == 0 && v.pending == 0)
    && (a.pc.Free? ==> !v.controlPort)
  }

  ghost predicate ActorsInv(s: State) {
    forall i :: 0 <= i < |s.actors| ==> PlaceInv(s.vs, s.actors[i]) && TurnInv(s.vs, s.actors[i])
  }

  // Messages and their handlers correspond one to one, and the sequence field is the turn.
  ghost predicate IndexInv(s: State) {
    && |s.index| == |s.log|
    && s.vs.turn <= |s.log| < s.vs.turn + SEQNO_MODULUS
    && s.vs.seqno == s.vs.turn % SEQNO_MODULUS
    && (forall n :: 0 <= n < |s.index| ==> s.index[n] < |s.actors|)
    && (forall n :: 0 <= n < |s.index| ==> IsHandler(s.actors[s.index[n]], s.log[n]) && s.actors[s.index[n]].num == n)
    && (forall i :: 0 <= i < |s.actors| && s.actors[i].role.Handler? ==>
      s.actors[i].num < |s.index| && s.index[s.actors[i].num] == i)
  }

  ghost predicate CountInv(s: State) {
    && s.vs.readers == Total(s.actors, ReaderWeight)
    && s.vs.writers == Total(s.actors, WriterWeight)
    && s.vs.pending == Total(s.actors, PendingWeight)
  }

  // The messages obey the kernel's side, and the port fields follow those already committed.
  ghost predicate LogInv(s: State) {
    && (forall n :: 0 <= n < |s.log| ==> MaySend(s.internal, s.log[..n], s.log[n]))
    && s.vs.turn <= |s.log|
    && s.vs.controlPort == Open(s.internal, s.log[..s.vs.turn])
    && s.vs.nameRefs == (if s.vs.controlPort then 1 else 0)
    && (!s.vs.controlPort ==> s.vs.readers == 0 && s.vs.writers == 0 && s.vs.pending == 0)
    && !s.vs.panicked
  }

  ghost predicate FreedInv(s: State) {
    s.vs.freed ==>
      && s.vs.turn == |s.log| - 1 == |s.index| - 1 && s.log[s.vs.turn].NoSenders? && !s.vs.controlPort
      && s.index[s.vs.turn] < |s.actors| && s.actors[s.index[s.vs.turn]].pc.Done?
  }

  ghost predicate SomeoneAt(s: State, pc: Pc) {
    exists j :: 0 <= j < |s.actors| && s.actors[j].pc == pc
  }

  // A sleeper whose condition already holds has a broadcast still on its way.
  ghost predicate WakeupInv(s: State, a: Actor) {
    a.pc.Sleep? && Ready(s.vs, a, a.pc.c) ==> SomeoneAt(s, Bcast(a.pc.c))
  }

  ghost predicate WakeupsInv(s: State) {
    forall i :: 0 <= i < |s.actors| ==> WakeupInv(s, s.actors[i])
  }

  ghost predicate PairFresh(reader: Actor, write: Actor) {
    ReaderWeight(reader) == 1 && IsWrite(write) && write.num < reader.num ==> WriteFinished(write)
  }

  // Whoever is reading for message n has every write numbered below n behind it.
  ghost predicate NoStaleRead(s: State) {
    forall i, j :: 0 <= i < |s.actors| && 0 <= j < |s.actors| ==> PairFresh(s.actors[i], s.actors[j])
  }

  ghost predicate Inv(s: State) {
    MutexInv(s) && ActorsInv(s) && IndexInv(s) && CountInv(s) && LogInv(s) && FreedInv(s) && WakeupsInv(s)
      && NoStaleRead(s)
  }

  // ---------------------------------------------------------------- every step keeps the invariant

  // Actor a, number i, owning the mutex exactly when its program point says so, counted in the
  // counters, and within one window of sequence numbers of the turn, takes a step with effect e.
  ghost predicate Acts(v: Vstruct, i: nat, a: Actor, choice: Choice, e: Effect) {
    && EffectOf(v, i, a, choice) == Some(e)
    && (Holds(a.pc) <==> v.holder == i)
    && PlaceInv(v, a) && TurnInv(v, a)
    && ReaderWeight(a) <= v.readers && WriterWeight(a) <= v.writers && PendingWeight(a) <= v.pending
    && 0 <= v.readers && 0 <= v.writers && 0 <= v.pending
    && (a.num >= v.turn && v.seqno == a.num % SEQNO_MODULUS ==> a.num == v.turn)
    && (a.num == v.turn && a.role.Handler? ==> (v.controlPort <==> !(a.role.kind.Init? || a.role.kind.NoSenders?)))
    && (a.num == v.turn && IsHandler(a, Terminate) ==> v.nameRefs == 1)
    && (!v.controlPort ==> v.readers == 0 && v.writers == 0 && v.pending == 0)
    && !v.panicked
  }

  lemma SameResidue(a: nat, b: nat)
    requires a <= b < a + SEQNO_MODULUS && a % SEQNO_MODULUS == b % SEQNO_MODULUS
    ensures a == b
  {
    var q, r := a / SEQNO_MODULUS, b / SEQNO_MODULUS;
    assert b - a == SEQNO_MODULUS * (r - q);
  }

  // What is needed of an effect, group by group.

  ghost predicate HolderFact(v: Vstruct, i: nat, e: Effect) {
    && (Holds(e.pc) <==> e.vs.holder == i)
    && (e.vs.holder == v.holder || (v.holder in {NOBODY, i} && e.vs.holder in {NOBODY, i}))
    && !e.vs.panicked
  }

  // Only HoldAdd starts an actor, and only the commit of a message advances the turn.
  ghost predicate ShapeFact(v: Vstruct, a: Actor, e: Effect) {
    && e.spawn == (if a.pc.HoldAdd? then Some(Actor(Completion(a.pc.size), a.num, InFlight)) else None)
    && (a.pc.HoldAdd? ==> IsHandler(a, DataReturn) && a.pc.size > 0 && a.num < e.vs.turn)
    && (if e.vs.turn == v.turn then
          e.vs.seqno == v.seqno && e.vs.controlPort == v.controlPort && e.vs.nameRefs == v.nameRefs
        else
          && a.role.Handler? && a.num == v.turn && e.vs.turn == v.turn + 1
          && e.vs.seqno == (v.seqno + 1) % SEQNO_MODULUS
          && !IsHandler(a, NoSenders) && e.pc == Bcast(Seqno)
          && e.vs.controlPort == (IsHandler(a, Init) || (v.controlPort && !IsHandler(a, Terminate)))
          && e.vs.nameRefs == (if IsHandler(a, Init) then 1 else if IsHandler(a, Terminate) then 0 else v.nameRefs))
    && (e.vs.freed ==> v.freed || (a.pc.Free? && e.pc.Done?))
    && !a.pc.Done?
  }

  ghost predicate CountFact(v: Vstruct, a: Actor, e: Effect) {
    && e.vs.readers - v.readers == ReaderWeight(a.(pc := e.pc)) - ReaderWeight(a)
    && e.vs.writers - v.writers == WriterWeight(a.(pc := e.pc)) - WriterWeight(a)
    && e.vs.pending - v.pending
      == PendingWeight(a.(pc := e.pc)) - PendingWeight(a) + (if a.pc.HoldAdd? then a.pc.size else 0)
  }

  // A step that makes a sleeper's condition true goes on to broadcast, and a step only goes to sleep
  // on a condition that is false.
  ghost predicate SignalFact(v: Vstruct, a: Actor, e: Effect) {
    && (e.vs.readers == 0 != v.readers ==> e.pc == Bcast(Readers))
    && (e.vs.writers == 0 != v.writers ==> e.pc == Bcast(Writers))
    && (e.vs.pending <= 0 < v.pending ==> e.pc == Bcast(Async))
    && (e.pc.Sleep? ==> !Ready(e.vs, a, e.pc.c) && e.pc.c != Refs)
    && (a.pc.Bcast? ==> e.wakes == Some(a.pc.c))
  }

  ghost predicate DataFact(v: Vstruct, a: Actor, e: Effect) {
    && (IsWrite(a) && WriteFinished(a) ==> WriteFinished(a.(pc := e.pc)))
    && (ReaderWeight(a.(pc := e.pc)) == 1 ==>
          ReaderWeight(a) == 1 || (a.num == v.turn && v.writers == 0 && v.pending == 0 && !a.pc.HoldAdd?))
  }

  lemma EffectHolder(v: Vstruct, i: nat, a: Actor, choice: Choice, e: Effect)
    requires Acts(v, i, a, choice, e)
    ensures HolderFact(v, i, e)
  {
  }

  lemma EffectFits(v: Vstruct, i: nat, a: Actor, choice: Choice, e: Effect)
    requires EffectOf(v, i, a, choice) == Some(e) && Fits(a.role, a.pc) && !e.vs.panicked
    requires a.pc == Test(Refs) ==> v.nameRefs != 0
    ensures Fits(a.role, e.pc)
  {
  }

  // Waiting for the turn, having it, and being past it follow each other in that order.
  lemma EffectFlow(v: Vstruct, i: nat, a: Actor, choice: Choice, e: Effect)
    requires EffectOf(v, i, a, choice) == Some(e) && Fits(a.role, a.pc) && !e.vs.panicked
    ensures Queued(e.pc) ==> Queued(a.pc)
    ensures HasTurn(e.pc) ==> HasTurn(a.pc) || (a.pc == Test(Seqno) && v.seqno == a.num % SEQNO_MODULUS)
    ensures Queued(a.pc) || HasTurn(a.pc) ==> Queued(e.pc) || HasTurn(e.pc) || a.pc.Commit?
    ensures a.pc.Commit? && !IsHandler(a, NoSenders) ==> e.vs.turn == v.turn + 1
    ensures !a.pc.Commit? ==> e.vs.turn == v.turn
  {
    if a.pc.Commit? {
      match a.role.kind
      case Init =>
      case Synchronize =>
      case DataRequest =>
      case DataReturn =>
      case Terminate =>
      case NoSenders =>
    }
  }

  lemma EffectPlace(v: Vstruct, i: nat, a: Actor, choice: Choice, e: Effect)
    requires Acts(v, i, a, choice, e)
    ensures PlaceInv(e.vs, a.(pc := e.pc))
  {
    EffectHolder(v, i, a, choice, e);
    EffectFits(v, i, a, choice, e);
    EffectFlow(v, i, a, choice, e);
    EffectShape(v, i, a, choice, e);
    PlaceFollows(v, a, e);
  }

  lemma PlaceFollows(v: Vstruct, a: Actor, e: Effect)
    requires PlaceInv(v, a) && Fits(a.role, e.pc) && ShapeFact(v, a, e)
    requires a.num >= v.turn && v.seqno == a.num % SEQNO_MODULUS ==> a.num == v.turn
    requires Queued(e.pc) ==> Queued(a.pc)
    requires HasTurn(e.pc) ==> HasTurn(a.pc) || (a.pc == Test(Seqno) && v.seqno == a.num % SEQNO_MODULUS)
    requires Queued(a.pc) || HasTurn(a.pc) ==> Queued(e.pc) || HasTurn(e.pc) || a.pc.Commit?
    requires a.pc.Commit? && !IsHandler(a, NoSenders) ==> e.vs.turn == v.turn + 1
    requires !a.pc.Commit? ==> e.vs.turn == v.turn
    ensures PlaceInv(e.vs, a.(pc := e.pc))
  {
  }

  lemma EffectTurn(v: Vstruct, i: nat, a: Actor, choice: Choice, e: Effect)
    requires Acts(v, i, a, choice, e)
    ensures TurnInv(e.vs, a.(pc := e.pc))
  {
    if a.pc.Commit? {
      EffectTurnAtCommit(v, i, a, choice, e);
    }
  }

  lemma EffectTurnAtCommit(v: Vstruct, i: nat, a: Actor, choice: Choice, e: Effect)
    requires Acts(v, i, a, choice, e) && a.pc.Commit?
    ensures TurnInv(e.vs, a.(pc := e.pc))
  {
    match a.role.kind
    case Init =>
    case Synchronize =>
    case DataRequest =>
    case DataReturn =>
    case Terminate =>
    case NoSenders =>
  }

  // No step of another actor undoes what b relies on.
  lemma EffectOther(v: Vstruct, i: nat, a: Actor, choice: Choice, e: Effect, b: Actor)
    requires Acts(v, i, a, choice, e)
    requires PlaceInv(v, b) && TurnInv(v, b)
    requires a.role.Handler? && b.role.Handler? ==> a.num != b.num
    ensures PlaceInv(e.vs, b) && TurnInv(e.vs, b)
  {
    if a.pc.Commit? {
      EffectOtherAtCommit(v, i, a, choice, e, b);
    }
  }

  lemma EffectOtherAtCommit(v: Vstruct, i: nat, a: Actor, choice: Choice, e: Effect, b: Actor)
    requires Acts(v, i, a, choice, e) && a.pc.Commit?
    requires PlaceInv(v, b) && TurnInv(v, b)
    requires a.role.Handler? && b.role.Handler? ==> a.num != b.num
    ensures PlaceInv(e.vs, b) && TurnInv(e.vs, b)
  {
    match a.role.kind
    case Init =>
    case Synchronize =>
    case DataRequest =>
    case DataReturn =>
    case Terminate =>
    case NoSenders =>
  }

  lemma EffectShape(v: Vstruct, i: nat, a: Actor, choice: Choice, e: Effect)
    requires Acts(v, i, a, choice, e)
    ensures ShapeFact(v, a, e)
  {
    if a.pc.Commit? {
      match a.role.kind
      case Init =>
      case Synchronize =>
      case DataRequest =>
      case DataReturn =>
      case Terminate =>
      case NoSenders =>
    }
  }

  lemma EffectCounts(v: Vstruct, i: nat, a: Actor, choice: Choice, e: Effect)
    requires EffectOf(v, i, a, choice) == Some(e) && Fits(a.role, a.pc) && !e.vs.panicked
    ensures CountFact(v, a, e)
  {
    EffectReaders(v, i, a, choice, e);
    EffectWriters(v, i, a, choice, e);
    EffectPending(v, i, a, choice, e);
  }

  lemma EffectReaders(v: Vstruct, i: nat, a: Actor, choice: Choice, e: Effect)
    requires EffectOf(v, i, a, choice) == Some(e) && Fits(a.role, a.pc) && !e.vs.panicked
    ensures e.vs.readers - v.readers == ReaderWeight(a.(pc := e.pc)) - ReaderWeight(a)
  {
  }

  lemma EffectWriters(v: Vstruct, i: nat, a: Actor, choice: Choice, e: Effect)
    requires EffectOf(v, i, a, choice) == Some(e) && Fits(a.role, a.pc) && !e.vs.panicked
    ensures e.vs.writers - v.writers == WriterWeight(a.(pc := e.pc)) - WriterWeight(a)
  {
  }

  lemma EffectPending(v: Vstruct, i: nat, a: Actor, choice: Choice, e: Effect)
    requires EffectOf(v, i, a, choice) == Some(e) && Fits(a.role, a.pc) && !e.vs.panicked
    ensures e.vs.pending - v.pending
      == PendingWeight(a.(pc := e.pc)) - PendingWeight(a) + (if a.pc.HoldAdd? then a.pc.size else 0)
  {
  }

  lemma EffectSignals(v: Vstruct, i: nat, a: Actor, choice: Choice, e: Effect)
    requires Acts(v, i, a, choice, e)
    ensures SignalFact(v, a, e)
  {
    if a.pc.Commit? {
      EffectSignalsAtCommit(v, i, a, choice, e);
    }
  }

  lemma EffectSignalsAtCommit(v: Vstruct, i: nat, a: Actor, choice: Choice, e: Effect)
    requires Acts(v, i, a, choice, e) && a.pc.Commit?
    ensures SignalFact(v, a, e)
  {
    match a.role.kind
    case Init =>
    case Synchronize =>
    case DataRequest =>
    case DataReturn =>
    case Terminate =>
    case NoSenders =>
  }

  lemma EffectData(v: Vstruct, i: nat, a: Actor, choice: Choice, e: Effect)
    requires Acts(v, i, a, choice, e)
    ensures DataFact(v, a, e)
  {
  }

  // ---------------------------------------------------------------- and so does every change of state

  lemma RouseKeeps(v: Vstruct, b: Actor, wakes: Option<Cond>)
    requires PlaceInv(v, b) && TurnInv(v, b)
    ensures PlaceInv(v, Rouse(b, wakes)) && TurnInv(v, Rouse(b, wakes))
  {
  }

  lemma ApplyKeepsMutex(s: State, i: nat, e: Effect)
    requires MutexInv(s) && i < |s.actors|
    requires HolderFact(s.vs, i, e) && ShapeFact(s.vs, s.actors[i], e)
    ensures MutexInv(Apply(s, i, e))
  {
    var t := Apply(s, i, e);
    assert forall j :: 0 <= j < |s.actors| && j != i ==> Holds(t.actors[j].pc) == Holds(s.actors[j].pc);
  }

  lemma ApplyKeepsActors(s: State, i: nat, e: Effect)
    requires i < |s.actors| && ShapeFact(s.vs, s.actors[i], e)
    requires PlaceInv(e.vs, s.actors[i].(pc := e.pc)) && TurnInv(e.vs, s.actors[i].(pc := e.pc))
    requires forall j :: 0 <= j < |s.actors| && j != i ==> PlaceInv(e.vs, s.actors[j]) && TurnInv(e.vs, s.actors[j])
    ensures ActorsInv(Apply(s, i, e))
  {
    forall j | 0 <= j < |s.actors| && j != i
      ensures PlaceInv(e.vs, Rouse(s.actors[j], e.wakes)) && TurnInv(e.vs, Rouse(s.actors[j], e.wakes))
    {
      RouseKeeps(e.vs, s.actors[j], e.wakes);
    }
  }

  lemma ApplyKeepsIndex(s: State, i: nat, e: Effect)
    requires IndexInv(s) && i < |s.actors| && ShapeFact(s.vs, s.actors[i], e)
    ensures IndexInv(Apply(s, i, e))
  {
    var t := Apply(s, i, e);
    assert forall j :: 0 <= j < |s.actors| ==>
      t.actors[j].role == s.actors[j].role && t.actors[j].num == s.actors[j].num;
  }

  lemma ApplyTotal(s: State, i: nat, e: Effect, w: Actor -> int)
    requires i < |s.actors|
    requires forall a: Actor :: w(Rouse(a, e.wakes)) == w(a)
    ensures Total(Apply(s, i, e).actors, w) == Total(s.actors, w) - w(s.actors[i]) + w(s.actors[i].(pc := e.pc))
      + (if e.spawn.None? then 0 else w(e.spawn.value))
  {
    var moved := s.actors[i := s.actors[i].(pc := e.pc)];
    var t := Apply(s, i, e).actors[..|s.actors|];
    TotalUpdate(s.actors, i, s.actors[i].(pc := e.pc), w);
    TotalSame(t, moved, w);
    if e.spawn.None? {
      assert Apply(s, i, e).actors == t;
    } else {
      TotalAppend(t, e.spawn.value, w);
      assert Apply(s, i, e).actors == t + [e.spawn.value];
    }
  }

  lemma ApplyKeepsCount(s: State, i: nat, e: Effect)
    requires CountInv(s) && i < |s.actors|
    requires ShapeFact(s.vs, s.actors[i], e) && CountFact(s.vs, s.actors[i], e)
    ensures CountInv(Apply(s, i, e))
  {
    ApplyTotal(s, i, e, ReaderWeight);
    ApplyTotal(s, i, e, WriterWeight);
    ApplyTotal(s, i, e, PendingWeight);
  }

  lemma ApplyKeepsLog(s: State, i: nat, e: Effect)
    requires LogInv(s) && IndexInv(s) && ActorsInv(s) && i < |s.actors|
    requires HolderFact(s.vs, i, e) && ShapeFact(s.vs, s.actors[i], e)
    requires TurnInv(s.vs, s.actors[i])
    requires !e.vs.controlPort ==> e.vs.readers == 0 && e.vs.writers == 0 && e.vs.pending == 0
    ensures LogInv(Apply(s, i, e))
  {
    var n := s.vs.turn;
    if e.vs.turn != n {
      assert s.log[n] == s.actors[i].role.kind;
      assert s.log[..n + 1][..n] == s.log[..n];
      assert s.log[..n + 1][n] == s.log[n];
    }
  }

  lemma ApplyKeepsFreed(s: State, i: nat, e: Effect)
    requires LogInv(s) && FreedInv(s) && IndexInv(s) && i < |s.actors|
    requires ShapeFact(s.vs, s.actors[i], e) && PlaceInv(s.vs, s.actors[i]) && TurnInv(s.vs, s.actors[i])
    ensures FreedInv(Apply(s, i, e))
  {
    if s.actors[i].pc.Free? && !s.vs.freed {
      FreeIsLast(s, i);
    }
  }

  // The actor that frees the object works for the last message, the no-senders notification.
  lemma FreeIsLast(s: State, i: nat)
    requires LogInv(s) && IndexInv(s) && i < |s.actors| && s.actors[i].pc.Free?
    requires PlaceInv(s.vs, s.actors[i]) && TurnInv(s.vs, s.actors[i])
    ensures s.vs.turn == |s.log| - 1 == |s.index| - 1 && s.log[s.vs.turn].NoSenders? && s.index[s.vs.turn] == i
  {
    var n := s.vs.turn;
    assert s.actors[i].role.Handler?;
    assert s.log[n].NoSenders?;
    var sent := s.log[..n + 1];
    assert sent[n] == s.log[n];
  }

  lemma ApplyKeepsWakeups(s: State, i: nat, e: Effect)
    requires WakeupsInv(s) && ActorsInv(s) && i < |s.actors|
    requires ShapeFact(s.vs, s.actors[i], e) && SignalFact(s.vs, s.actors[i], e)
    ensures WakeupsInv(Apply(s, i, e))
  {
    var t := Apply(s, i, e);
    assert t.actors[i] == s.actors[i].(pc := e.pc);
    forall j | 0 <= j < |t.actors| ensures WakeupInv(t, t.actors[j]) {
      if j < |s.actors| && j != i && t.actors[j].pc.Sleep? {
        assert t.actors[j] == s.actors[j] && e.wakes != Some(s.actors[j].pc.c);
        assert WakeupInv(s, s.actors[j]) && PlaceInv(s.vs, s.actors[j]);
        if SomeoneAt(s, Bcast(s.actors[j].pc.c)) {
          BroadcastStays(s, i, e, s.actors[j].pc.c);
        }
      }
    }
  }

  // A broadcast owed to a wait set that the step does not wake is still owed after it.
  lemma BroadcastStays(s: State, i: nat, e: Effect, c: Cond)
    requires i < |s.actors| && e.wakes != Some(c)
    requires s.actors[i].pc.Bcast? ==> e.wakes == Some(s.actors[i].pc.c)
    requires SomeoneAt(s, Bcast(c))
    ensures SomeoneAt(Apply(s, i, e), Bcast(c))
  {
    var k :| 0 <= k < |s.actors| && s.actors[k].pc == Bcast(c);
    assert Apply(s, i, e).actors[k] == s.actors[k];
  }

  lemma ApplyKeepsPair(s: State, i: nat, e: Effect, x: nat, y: nat)
    requires NoStaleRead(s) && ActorsInv(s) && CountInv(s) && i < |s.actors|
    requires ShapeFact(s.vs, s.actors[i], e) && DataFact(s.vs, s.actors[i], e)
    requires x < |Apply(s, i, e).actors| && y < |Apply(s, i, e).actors|
    ensures PairFresh(Apply(s, i, e).actors[x], Apply(s, i, e).actors[y])
  {
    var t := Apply(s, i, e);
    if ReaderWeight(t.actors[x]) == 1 && IsWrite(t.actors[y]) && t.actors[y].num < t.actors[x].num {
      if x < |s.actors| && ReaderWeight(s.actors[x]) == 1 {
        OldReader(s, i, e, x, y);
      } else {
        NewReader(s, i, e, y);
      }
    }
  }

  lemma ApplyKeepsNoStaleRead(s: State, i: nat, e: Effect)
    requires NoStaleRead(s) && ActorsInv(s) && CountInv(s) && i < |s.actors|
    requires ShapeFact(s.vs, s.actors[i], e) && DataFact(s.vs, s.actors[i], e)
    ensures NoStaleRead(Apply(s, i, e))
  {
    var t := Apply(s, i, e);
    forall x, y | 0 <= x < |t.actors| && 0 <= y < |t.actors| ensures PairFresh(t.actors[x], t.actors[y]) {
      ApplyKeepsPair(s, i, e, x, y);
    }
  }

  lemma OldReader(s: State, i: nat, e: Effect, x: nat, y: nat)
    requires NoStaleRead(s) && i < |s.actors| && x < |s.actors| && y < |Apply(s, i, e).actors|
    requires ShapeFact(s.vs, s.actors[i], e) && DataFact(s.vs, s.actors[i], e)
    requires ReaderWeight(s.actors[x]) == 1
    requires IsWrite(Apply(s, i, e).actors[y]) && Apply(s, i, e).actors[y].num < s.actors[x].num
    ensures WriteFinished(Apply(s, i, e).actors[y])
  {
    assert PairFresh(s.actors[x], s.actors[i]);
    if y < |s.actors| {
      assert PairFresh(s.actors[x], s.actors[y]);
    }
  }

  lemma NewReader(s: State, i: nat, e: Effect, y: nat)
    requires CountInv(s) && ActorsInv(s) && i < |s.actors| && y < |Apply(s, i, e).actors|
    requires ShapeFact(s.vs, s.actors[i], e) && DataFact(s.vs, s.actors[i], e)
    requires ReaderWeight(s.actors[i].(pc := e.pc)) == 1 && ReaderWeight(s.actors[i]) != 1
    requires IsWrite(Apply(s, i, e).actors[y]) && Apply(s, i, e).actors[y].num < s.actors[i].num
    ensures WriteFinished(Apply(s, i, e).actors[y])
  {
    TotalBounds(s.actors, WriterWeight);
    TotalBounds(s.actors, PendingWeight);
    assert y < |s.actors| && y != i;
    assert PlaceInv(s.vs, s.actors[y]);
    assert WriterWeight(s.actors[y]) == 0 && PendingWeight(s.actors[y]) == 0;
    assert WriteFinished(s.actors[y]);
  }

  lemma ActsHere(s: State, i: nat, choice: Choice, e: Effect)
    requires Inv(s) && i < |s.actors| && EffectOf(s.vs, i, s.actors[i], choice) == Some(e)
    ensures Acts(s.vs, i, s.actors[i], choice, e)
  {
    var a := s.actors[i];
    TotalBounds(s.actors, ReaderWeight);
    TotalBounds(s.actors, WriterWeight);
    TotalBounds(s.actors, PendingWeight);
    WindowHere(s, a);
    if a.role.Handler? && a.num == s.vs.turn {
      assert s.log[a.num] == a.role.kind;
      assert MaySend(s.internal, s.log[..s.vs.turn], s.log[s.vs.turn]);
    }
  }

  lemma WindowHere(s: State, a: Actor)
    requires IndexInv(s) && PlaceInv(s.vs, a) && (a.role.Handler? ==> a.num < |s.log|)
    ensures a.num >= s.vs.turn && s.vs.seqno == a.num % SEQNO_MODULUS ==> a.num == s.vs.turn
  {
    if a.num >= s.vs.turn && s.vs.seqno == a.num % SEQNO_MODULUS {
      SameResidue(s.vs.turn, a.num);
    }
  }

  lemma EffectClosed(v: Vstruct, i: nat, a: Actor, choice: Choice, e: Effect)
    requires Acts(v, i, a, choice, e)
    ensures !e.vs.controlPort ==> e.vs.readers == 0 && e.vs.writers == 0 && e.vs.pending == 0
  {
  }

  lemma ActKeepsInv(s: State, i: nat, choice: Choice, e: Effect)
    requires Inv(s) && i < |s.actors| && EffectOf(s.vs, i, s.actors[i], choice) == Some(e)
    ensures Inv(Apply(s, i, e))
  {
    var a, v := s.actors[i], s.vs;
    ActsHere(s, i, choice, e);
    EffectHolder(v, i, a, choice, e);
    EffectShape(v, i, a, choice, e);
    EffectPlace(v, i, a, choice, e);
    EffectTurn(v, i, a, choice, e);
    EffectCounts(v, i, a, choice, e);
    EffectSignals(v, i, a, choice, e);
    EffectData(v, i, a, choice, e);
    EffectClosed(v, i, a, choice, e);
    forall j | 0 <= j < |s.actors| && j != i ensures PlaceInv(e.vs, s.actors[j]) && TurnInv(e.vs, s.actors[j]) {
      EffectOther(v, i, a, choice, e, s.actors[j]);
    }
    ApplyKeepsMutex(s, i, e);
    ApplyKeepsActors(s, i, e);
    ApplyKeepsIndex(s, i, e);
    ApplyKeepsCount(s, i, e);
    ApplyKeepsLog(s, i, e);
    ApplyKeepsFreed(s, i, e);
    ApplyKeepsWakeups(s, i, e);
    ApplyKeepsNoStaleRead(s, i, e);
  }

  lemma SendKeepsInv(s: State, k: Kind, bytes: nat)
    requires Inv(s) && MaySend(s.internal, s.log, k) && |s.log| - s.vs.turn < SEQNO_MODULUS - 1
    ensures Inv(Send(s, k, bytes))
  {
    SendKeepsCount(s, k, bytes);
    SendKeepsLog(s, k, bytes);
    SendKeepsOrder(s, k, bytes);
    SendKeepsWakeups(s, k, bytes);
    SendKeepsNoStaleRead(s, k, bytes);
  }

  lemma SendKeepsCount(s: State, k: Kind, bytes: nat)
    requires CountInv(s)
    ensures CountInv(Send(s, k, bytes))
  {
    var a := Actor(Handler(k, bytes), |s.log|, Want(Seqno));
    TotalAppend(s.actors, a, ReaderWeight);
    TotalAppend(s.actors, a, WriterWeight);
    TotalAppend(s.actors, a, PendingWeight);
  }

  lemma SendKeepsLog(s: State, k: Kind, bytes: nat)
    requires LogInv(s) && FreedInv(s) && MaySend(s.internal, s.log, k)
    ensures LogInv(Send(s, k, bytes)) && FreedInv(Send(s, k, bytes))
  {
    var t := Send(s, k, bytes);
    forall n | 0 <= n < |t.log| ensures MaySend(t.internal, t.log[..n], t.log[n]) {
      if n < |s.log| {
        assert t.log[..n] == s.log[..n];
      } else {
        assert t.log[..n] == s.log;
      }
    }
    assert t.log[..t.vs.turn] == s.log[..s.vs.turn];
  }

  lemma SendKeepsOrder(s: State, k: Kind, bytes: nat)
    requires MutexInv(s) && IndexInv(s) && ActorsInv(s) && |s.log| - s.vs.turn < SEQNO_MODULUS - 1
    ensures MutexInv(Send(s, k, bytes)) && IndexInv(Send(s, k, bytes)) && ActorsInv(Send(s, k, bytes))
  {
  }

  lemma SendKeepsWakeups(s: State, k: Kind, bytes: nat)
    requires WakeupsInv(s)
    ensures WakeupsInv(Send(s, k, bytes))
  {
    var t := Send(s, k, bytes);
    forall j | 0 <= j < |t.actors| ensures WakeupInv(t, t.actors[j]) {
      if j < |s.actors| && t.actors[j].pc.Sleep? && SomeoneAt(s, Bcast(t.actors[j].pc.c)) {
        var m :| 0 <= m < |s.actors| && s.actors[m].pc == Bcast(t.actors[j].pc.c);
        assert t.actors[m] == s.actors[m];
      }
    }
  }

  lemma SendKeepsNoStaleRead(s: State, k: Kind, bytes: nat)
    requires NoStaleRead(s) && IndexInv(s) && ActorsInv(s)
    ensures NoStaleRead(Send(s, k, bytes))
  {
    var t := Send(s, k, bytes);
    forall x, y | 0 <= x < |t.actors| && 0 <= y < |t.actors| ensures PairFresh(t.actors[x], t.actors[y]) {
      if x < |s.actors| {
        assert PlaceInv(s.vs, s.actors[x]);
        if y < |s.actors| {
          assert PairFresh(s.actors[x], s.actors[y]);
        }
      }
    }
  }

  lemma StepKeepsInv(s: State, l: Label, t: State)
    requires Inv(s) && Next(s, l) == Some(t)
    ensures Inv(t)
  {
    match l
    case Act(i, choice) => ActKeepsInv(s, i, choice, EffectOf(s.vs, i, s.actors[i], choice).value);
    case Deliver(k, bytes) => SendKeepsInv(s, k, bytes);
  }

  // ---------------------------------------------------------------- safety over every run

  lemma StartHasInv(internal: bool)
    ensures Inv(Start(internal))
  {
    assert Start(internal).log[..0] == [];
  }

  lemma {:induction false} RunKeepsInv(run: seq<State>, k: nat)
    requires Run(run) && k < |run|
    ensures Inv(run[k])
  {
    if k == 0 {
      StartHasInv(true);
      StartHasInv(false);
    } else {
      RunKeepsInv(run, k - 1);
      assert Step(run[k - 1], run[k]);
      var l :| Next(run[k - 1], l) == Some(run[k]);
      StepKeepsInv(run[k - 1], l, run[k]);
    }
  }

  // No stale reads.  Whenever, in any interleaving, the handler of data request n is between its
  // vs_start_read and its vs_finish_read, the handler of every earlier data return has committed and
  // finished, and none of its asynchronous writes is outstanding.
  lemma ReadsSeeEarlierWrites(run: seq<State>, k: nat, i: nat, j: nat)
    requires Run(run) && k < |run| && i < |run[k].actors| && j < |run[k].actors|
    requires IsHandler(run[k].actors[i], DataRequest) && Active(run[k].actors[i].pc)
    requires run[k].actors[j].num < run[k].actors[i].num
    ensures IsHandler(run[k].actors[j], DataReturn) ==>
      run[k].actors[j].pc == Bcast(Writers) || run[k].actors[j].pc.Done?
    ensures run[k].actors[j].role.Completion? ==> run[k].actors[j].pc == Bcast(Async) || run[k].actors[j].pc.Done?
  {
    RunKeepsInv(run, k);
    assert PairFresh(run[k].actors[i], run[k].actors[j]);
    assert PlaceInv(run[k].vs, run[k].actors[j]);
  }

  // At the instant a data request starts reading nothing is being written, whatever its number.
  lemma ReadStartsQuiet(run: seq<State>, k: nat, i: nat, j: nat)
    requires Run(run) && k < |run| && i < |run[k].actors| && j < |run[k].actors|
    requires IsHandler(run[k].actors[i], DataRequest) && run[k].actors[i].pc.Commit?
    ensures !(IsHandler(run[k].actors[j], DataReturn) && Active(run[k].actors[j].pc))
    ensures run[k].actors[j].role.Completion? ==> run[k].actors[j].pc == Bcast(Async) || run[k].actors[j].pc.Done?
    ensures run[k].vs.holder == i && run[k].actors[i].num == run[k].vs.turn
  {
    RunKeepsInv(run, k);
    var s := run[k];
    assert PlaceInv(s.vs, s.actors[i]) && TurnInv(s.vs, s.actors[i]) && PlaceInv(s.vs, s.actors[j]);
    TotalBounds(s.actors, WriterWeight);
    TotalBounds(s.actors, PendingWeight);
  }

  // Terminate clears the control port, and the object is freed, only with nothing in progress; and
  // neither fatal branch (init of an open object, no-senders on an open object) is ever taken.  Once
  // the object is freed, all that any thread may still do to it is the broadcast it owes.
  lemma TerminateAndFreeAreQuiet(run: seq<State>, k: nat, i: nat, j: nat)
    requires Run(run) && k < |run| && i < |run[k].actors| && j < |run[k].actors|
    requires !run[k].vs.controlPort || (IsHandler(run[k].actors[i], Terminate) && run[k].actors[i].pc.Commit?)
    ensures run[k].vs.readers == 0 && run[k].vs.writers == 0 && run[k].vs.pending == 0
    ensures ReaderWeight(run[k].actors[j]) == WriterWeight(run[k].actors[j]) == PendingWeight(run[k].actors[j]) == 0
    ensures !run[k].vs.panicked
  {
    RunKeepsInv(run, k);
    var s := run[k];
    TotalBounds(s.actors, ReaderWeight);
    TotalBounds(s.actors, WriterWeight);
    TotalBounds(s.actors, PendingWeight);
    assert PlaceInv(s.vs, s.actors[i]) && TurnInv(s.vs, s.actors[i]);
  }

  lemma FreedObjectIsQuiet(run: seq<State>, k: nat, j: nat)
    requires Run(run) && k < |run| && run[k].vs.freed && j < |run[k].actors|
    ensures !run[k].vs.controlPort
    ensures run[k].actors[j].pc.Bcast? || run[k].actors[j].pc.Done?
  {
    RunKeepsInv(run, k);
    var s := run[k];
    TerminateAndFreeAreQuiet(run, k, j, j);
    assert PlaceInv(s.vs, s.actors[j]);
  }

  lemma EffectRaises(v: Vstruct, i: nat, a: Actor, choice: Choice, e: Effect)
    requires Acts(v, i, a, choice, e)
    ensures e.vs.readers > v.readers || e.vs.writers > v.writers ==> a.role.Handler? && a.pc.Commit? && !HasTurn(e.pc)
    ensures e.vs.pending > v.pending ==> WriterWeight(a) == 1
  {
  }

  // What a handler waits for while it has the turn can only come nearer: no step of another thread
  // adds a reader or a writer, and once there is no writer none adds an asynchronous write.
  lemma CountersOnlyFall(s: State, l: Label, t: State, y: nat)
    requires Inv(s) && Next(s, l) == Some(t) && y < |s.actors| && s.actors[y].role.Handler?
    requires HasTurn(s.actors[y].pc) && HasTurn(t.actors[y].pc)
    ensures t.vs.readers <= s.vs.readers && t.vs.writers <= s.vs.writers
    ensures s.vs.writers == 0 ==> t.vs.pending <= s.vs.pending
  {
    if l.Act? {
      var a := s.actors[l.i];
      var e := EffectOf(s.vs, l.i, a, l.choice).value;
      ActsHere(s, l.i, l.choice, e);
      EffectRaises(s.vs, l.i, a, l.choice, e);
      assert PlaceInv(s.vs, a) && PlaceInv(s.vs, s.actors[y]);
      assert a.role.Handler? && a.pc.Commit? ==> a.num == s.actors[y].num && l.i == y;
      TotalBounds(s.actors, WriterWeight);
    }
  }

  // ---------------------------------------------------------------- progress and completion

  predicate AllDone(s: State) {
    forall i :: 0 <= i < |s.actors| ==> s.actors[i].pc.Done?
  }

  ghost predicate AllStuck(s: State) {
    forall i :: 0 <= i < |s.actors| ==> s.actors[i].pc.Sleep? || s.actors[i].pc.Done?
  }

  lemma StuckCountsNothing(s: State)
    requires CountInv(s) && AllStuck(s)
    ensures s.vs.readers == 0 && s.vs.writers == 0 && s.vs.pending == 0
  {
    TotalBounds(s.actors, ReaderWeight);
    TotalBounds(s.actors, WriterWeight);
    TotalBounds(s.actors, PendingWeight);
  }

  lemma NothingAfterNoSenders(s: State, n: nat)
    requires n + 1 < |s.log| && MaySend(s.internal, s.log[..n + 1], s.log[n + 1])
    ensures !s.log[n].NoSenders?
  {
    assert s.log[..n + 1][n] == s.log[n];
  }

  // The message whose turn it is has a handler, which is done only after the last message.
  lemma TurnOwner(s: State) returns (y: nat)
    requires IndexInv(s) && ActorsInv(s) && LogInv(s) && s.vs.turn < |s.log|
    ensures y < |s.actors| && s.actors[y].role.Handler? && s.actors[y].num == s.vs.turn && s.index[s.vs.turn] == y
    ensures s.actors[y].pc.Done? ==> s.log[s.vs.turn].NoSenders? && s.vs.turn == |s.log| - 1
  {
    y := s.index[s.vs.turn];
    assert PlaceInv(s.vs, s.actors[y]);
    if s.vs.turn + 1 < |s.log| {
      NothingAfterNoSenders(s, s.vs.turn);
    }
  }

  lemma SleeperIsWoken(s: State, a: Actor)
    requires WakeupInv(s, a) && a.pc.Sleep? && a.pc.c != Refs
    requires s.vs.readers == 0 && s.vs.writers == 0 && s.vs.pending == 0 && s.vs.seqno == a.num % SEQNO_MODULUS
    ensures !AllStuck(s)
  {
  }

  // If everyone were asleep, the owner of the turn would be asleep on a false condition, and someone
  // awake would have to be counted in the counter it waits for.
  lemma SomeoneIsAwake(s: State)
    requires Inv(s) && !AllDone(s)
    ensures !AllStuck(s)
  {
    if AllStuck(s) {
      var x :| 0 <= x < |s.actors| && !s.actors[x].pc.Done?;
      assert PlaceInv(s.vs, s.actors[x]);
      var y := TurnOwner(s);
      StuckCountsNothing(s);
      assert PlaceInv(s.vs, s.actors[y]);
      SleeperIsWoken(s, s.actors[y]);
    }
  }

  // What an awake thread can always do next; a write handler need not give up.
  function Onward(a: Actor): Choice {
    if IsHandler(a, DataReturn) && a.pc.Working? && a.pc.left > 0 then WriteSync(a.pc.left) else Go
  }

  lemma AwakeCanStep(v: Vstruct, i: nat, a: Actor)
    requires Fits(a.role, a.pc) && !a.pc.Sleep? && !a.pc.Done?
    requires v.holder == NOBODY || Holds(a.pc)
    ensures EffectOf(v, i, a, Onward(a)).Some?
  {
  }

  // No deadlock: as long as some thread has work left, some thread can take a step, without waiting
  // for another message and without giving anything up.
  lemma Progress(s: State)
    requires Inv(s) && !AllDone(s)
    ensures exists i: nat, choice: Choice :: i < |s.actors| && !choice.GiveUp? && Next(s, Act(i, choice)).Some?
  {
    SomeoneIsAwake(s);
    var i: nat :| i < |s.actors| && !s.actors[i].pc.Sleep? && !s.actors[i].pc.Done?;
    if s.vs.holder != NOBODY {
      i := s.vs.holder;
    }
    assert PlaceInv(s.vs, s.actors[i]);
    AwakeCanStep(s.vs, i, s.actors[i]);
    assert Next(s, Act(i, Onward(s.actors[i]))).Some?;
  }

  // The work an actor has left, not counting how often it re-tests a condition...
  function Work(a: Actor): int {
    match a.role
    case Completion(_) =>
      (match a.pc case InFlight => 4 case WantDec => 3 case HoldDec => 2 case Bcast(_) => 1 case _ => 0)
    case Handler(_, bytes) =>
      match a.pc
      case Want(c) => Stage(c) + 10 * bytes
      case Test(c) => Stage(c) + 10 * bytes
      case Sleep(c) => Stage(c) + 10 * bytes
      case CheckReq => 19 + 10 * bytes
      case DropReq => 18 + 10 * bytes
      case Commit => 13 + 10 * bytes
      case Bcast(c) => if c == Seqno then 12 + 10 * bytes else 1
      case Working(left) => 5 + 10 * left
      case WantAdd(left, _) => 4 + 10 * left
      case HoldAdd(left, _) => 3 + 10 * left
      case WantFinish => 3
      case HoldFinish => 2
      case Free => 1
      case _ => 0
  }

  function Stage(c: Cond): int {
    match c
    case Seqno => 20
    case Readers => 17
    case Writers => 16
    case Async => 15
    case Refs => 14
  }

  // ... and how close it is to its next sleep.
  function Retest(a: Actor): int {
    if a.pc.Want? then 2 else if a.pc.Test? then 1 else 0
  }

  lemma EffectDescends(v: Vstruct, i: nat, a: Actor, choice: Choice, e: Effect)
    requires EffectOf(v, i, a, choice) == Some(e) && Fits(a.role, a.pc) && !e.vs.panicked
    ensures var rest := Work(a.(pc := e.pc)) + (if e.spawn.None? then 0 else Work(e.spawn.value));
      rest < Work(a) || (rest == Work(a) && e.spawn.None? && e.wakes.None? && Retest(a.(pc := e.pc)) < Retest(a))
  {
  }

  ghost predicate Closer(t: State, s: State) {
    && 0 <= Total(t.actors, Work) && 0 <= Total(t.actors, Retest)
    && (Total(t.actors, Work) < Total(s.actors, Work)
        || (Total(t.actors, Work) == Total(s.actors, Work) && Total(t.actors, Retest) < Total(s.actors, Retest)))
  }

  lemma ApplyDescends(s: State, i: nat, e: Effect)
    requires i < |s.actors|
    requires var a := s.actors[i];
      var rest := Work(a.(pc := e.pc)) + (if e.spawn.None? then 0 else Work(e.spawn.value));
      rest < Work(a) || (rest == Work(a) && e.spawn.None? && e.wakes.None? && Retest(a.(pc := e.pc)) < Retest(a))
    ensures Closer(Apply(s, i, e), s)
  {
    WorkIgnoresRousing(e.wakes);
    ApplyTotal(s, i, e, Work);
    if e.wakes.None? {
      ApplyTotal(s, i, e, Retest);
    }
    WorkIsNat(Apply(s, i, e));
  }

  lemma WorkIgnoresRousing(wakes: Option<Cond>)
    ensures forall a: Actor :: Work(Rouse(a, wakes)) == Work(a)
  {
  }

  lemma WorkIsNat(s: State)
    ensures 0 <= Total(s.actors, Work) && 0 <= Total(s.actors, Retest)
  {
    TotalBounds(s.actors, Work);
    TotalBounds(s.actors, Retest);
  }

  lemma NextDescends(s: State, l: Label)
    requires Inv(s) && l.Act? && Next(s, l).Some?
    ensures Inv(Next(s, l).value) && Closer(Next(s, l).value, s) && Next(s, l).value.log == s.log
  {
    var e := EffectOf(s.vs, l.i, s.actors[l.i], l.choice).value;
    ActKeepsInv(s, l.i, l.choice, e);
    ActsHere(s, l.i, l.choice, e);
    EffectHolder(s.vs, l.i, s.actors[l.i], l.choice, e);
    EffectDescends(s.vs, l.i, s.actors[l.i], l.choice, e);
    ApplyDescends(s, l.i, e);
  }

  // A scheduler that picks, whenever some thread has work left, a thread that can take a step.
  ghost predicate Schedules(pick: State -> Label) {
    forall s :: Inv(s) && !AllDone(s) ==> pick(s).Act? && Next(s, pick(s)).Some?
  }

  // Run the threads, in any order the scheduler likes, without sending any more messages.  Every
  // such run ends, with every thread done.
  ghost function Drain(s: State, pick: State -> Label): (t: State)
    requires Inv(s) && Schedules(pick)
    ensures Inv(t) && AllDone(t) && t.log == s.log
    decreases Total(s.actors, Work), Total(s.actors, Retest)
  {
    if AllDone(s) then s
    else
      NextDescends(s, pick(s));
      WorkIsNat(s);
      Drain(Next(s, pick(s)).value, pick)
  }

  predicate OwnsMutex(s: State, i: int) {
    0 <= i < |s.actors| && Holds(s.actors[i].pc)
  }

  lemma NoOwner(s: State, i: int)
    requires MutexInv(s) && AllDone(s)
    ensures !OwnsMutex(s, i) && (s.vs.holder == i ==> i == NOBODY)
  {
  }

  // After such a run every turn has been taken and nothing is in progress.
  lemma DrainedIsQuiet(s: State)
    requires Inv(s) && AllDone(s)
    ensures s.vs.holder == NOBODY
    ensures s.vs.readers == 0 && s.vs.writers == 0 && s.vs.pending == 0
    ensures s.vs.turn == |s.log| || (s.vs.turn == |s.log| - 1 && s.log[s.vs.turn].NoSenders?)
  {
    StuckCountsNothing(s);
    NoOwner(s, s.vs.holder);
    if s.vs.turn < |s.log| {
      var y := TurnOwner(s);
    }
  }

  // ---------------------------------------------------------------- every byte of a data return

  // The state after these steps.
  function After(s: State, labels: seq<Label>): Option<State>
    decreases |labels|
  {
    if labels == [] then Some(s)
    else
      var n := |labels| - 1;
      var m := After(s, labels[..n]);
      if m.None? then None else Next(m.value, labels[n])
  }

  lemma AfterOne(s: State, labels: seq<Label>, l: Label)
    ensures After(s, labels + [l])
      == if After(s, labels).None? then None else Next(After(s, labels).value, l)
  {
    assert (labels + [l])[..|labels|] == labels;
  }

  lemma {:induction false} AfterKeepsInv(internal: bool, labels: seq<Label>)
    requires After(Start(internal), labels).Some?
    ensures Inv(After(Start(internal), labels).value)
    decreases |labels|
  {
    if labels == [] {
      StartHasInv(internal);
    } else {
      var n := |labels| - 1;
      AfterKeepsInv(internal, labels[..n]);
      StepKeepsInv(After(Start(internal), labels[..n]).value, labels[n], After(Start(internal), labels).value);
    }
  }

  // vs_control_refs, which is 0 exactly while there is no control port.
  predicate RefsOk(v: Vstruct) {
    if v.controlPort then 1 <= v.controlRefs <= MAX_UREFS else v.controlRefs == 0
  }

  // The references to the control port never exceed the limit, and none is left when it is cleared.
  lemma {:induction false} RefsAreBounded(internal: bool, labels: seq<Label>)
    requires After(Start(internal), labels).Some?
    ensures RefsOk(After(Start(internal), labels).value.vs)
    decreases |labels|
  {
    if labels != [] {
      var n := |labels| - 1;
      var s := After(Start(internal), labels[..n]).value;
      RefsAreBounded(internal, labels[..n]);
      AfterKeepsInv(internal, labels[..n]);
      if labels[n].Act? {
        var (i, choice) := (labels[n].i, labels[n].choice);
        var e := EffectOf(s.vs, i, s.actors[i], choice).value;
        ActsHere(s, i, choice, e);
        EffectRefs(s.vs, i, s.actors[i], choice, e);
      }
    }
  }

  lemma EffectRefs(v: Vstruct, i: nat, a: Actor, choice: Choice, e: Effect)
    requires Acts(v, i, a, choice, e) && RefsOk(v)
    ensures RefsOk(e.vs)
  {
    EffectShape(v, i, a, choice, e);
  }

  // The bytes of message n that device writes were started for; those that handler i wrote
  // synchronously, or gave back, in these steps; and those it still has.
  function StartedFor(n: nat): Actor -> int {
    (a: Actor) => if a.role.Completion? && a.num == n then a.role.size else 0
  }

  function Synchronous(i: nat): Label -> int {
    (l: Label) => if l.Act? && l.i == i && l.choice.WriteSync? then l.choice.size else 0
  }

  function GivenBack(i: nat): Label -> int {
    (l: Label) => if l.Act? && l.i == i && l.choice.GiveUp? then l.choice.size else 0
  }

  function Left(a: Actor): nat
    requires a.role.Handler?
  {
    match a.pc
    case Working(left) => left
    case WantAdd(left, _) => left
    case HoldAdd(left, _) => left
    case WantFinish => 0
    case HoldFinish => 0
    case Bcast(c) => if c == Writers then 0 else a.role.bytes
    case Done => 0
    case _ => a.role.bytes
  }

  ghost function Accounted(s: State, labels: seq<Label>, i: nat): int
    requires i < |s.actors| && s.actors[i].role.Handler?
  {
    Total(s.actors, StartedFor(s.actors[i].num)) + Total(labels, Synchronous(i)) + Total(labels, GivenBack(i))
      + Left(s.actors[i])
  }

  lemma NothingStartedFor(s: State, n: nat)
    requires ActorsInv(s) && n >= s.vs.turn
    ensures Total(s.actors, StartedFor(n)) == 0
  {
    forall j | 0 <= j < |s.actors| ensures StartedFor(n)(s.actors[j]) == 0 {
      assert PlaceInv(s.vs, s.actors[j]);
    }
    TotalBounds(s.actors, StartedFor(n));
  }

  // The label of a step says what the handler did with its bytes.
  lemma EffectBytes(v: Vstruct, i: nat, a: Actor, choice: Choice, e: Effect)
    requires EffectOf(v, i, a, choice) == Some(e) && Fits(a.role, a.pc) && IsHandler(a, DataReturn) && !e.vs.panicked
    ensures Left(a) - Left(a.(pc := e.pc))
      == Synchronous(i)(Act(i, choice)) + GivenBack(i)(Act(i, choice))
         + (if e.spawn.Some? then StartedFor(a.num)(e.spawn.value) else 0)
  {
  }

  // A label takes bytes of no handler but the one it names.
  lemma OtherBytes(l: Label, i: nat)
    requires l.Deliver? || l.i != i
    ensures Synchronous(i)(l) == GivenBack(i)(l) == 0
  {
  }

  lemma StartedMore(s: State, j: nat, e: Effect, n: nat)
    requires j < |s.actors|
    ensures Total(Apply(s, j, e).actors, StartedFor(n))
      == Total(s.actors, StartedFor(n)) + if e.spawn.None? then 0 else StartedFor(n)(e.spawn.value)
  {
    ApplyTotal(s, j, e, StartedFor(n));
  }

  lemma LabelsMore(labels: seq<Label>, l: Label, i: nat)
    ensures Total(labels + [l], Synchronous(i)) == Total(labels, Synchronous(i)) + Synchronous(i)(l)
    ensures Total(labels + [l], GivenBack(i)) == Total(labels, GivenBack(i)) + GivenBack(i)(l)
  {
    TotalAppend(labels, l, Synchronous(i));
    TotalAppend(labels, l, GivenBack(i));
  }

  // What a step of actor j starts is not for another handler's message, nor does it move its bytes.
  lemma OtherHandler(s: State, j: nat, e: Effect, i: nat)
    requires IndexInv(s) && i < |s.actors| && j < |s.actors| && i != j && s.actors[i].role.Handler?
    requires ShapeFact(s.vs, s.actors[j], e)
    ensures Apply(s, j, e).actors[i].role == s.actors[i].role && Apply(s, j, e).actors[i].num == s.actors[i].num
    ensures Left(Apply(s, j, e).actors[i]) == Left(s.actors[i])
    ensures e.spawn.Some? ==> StartedFor(s.actors[i].num)(e.spawn.value) == 0
  {
    assert e.spawn.Some? ==> s.index[s.actors[j].num] == j && s.index[s.actors[i].num] == i;
  }

  lemma ApplyAccounts(s: State, labels: seq<Label>, j: nat, choice: Choice, e: Effect, i: nat)
    requires Inv(s) && j < |s.actors| && EffectOf(s.vs, j, s.actors[j], choice) == Some(e)
    requires i < |s.actors| && IsHandler(s.actors[i], DataReturn)
    requires Accounted(s, labels, i) == s.actors[i].role.bytes
    ensures var t := Apply(s, j, e);
      IsHandler(t.actors[i], DataReturn) && Accounted(t, labels + [Act(j, choice)], i) == t.actors[i].role.bytes
  {
    var t, n, l, a := Apply(s, j, e), s.actors[i].num, Act(j, choice), s.actors[j];
    ActsHere(s, j, choice, e);
    StartedMore(s, j, e, n);
    LabelsMore(labels, l, i);
    if j == i {
      EffectHolder(s.vs, j, a, choice, e);
      EffectBytes(s.vs, i, a, choice, e);
      assert t.actors[i] == a.(pc := e.pc);
    } else {
      EffectShape(s.vs, j, a, choice, e);
      OtherBytes(l, i);
      OtherHandler(s, j, e, i);
    }
  }

  lemma SendAccounts(s: State, labels: seq<Label>, k: Kind, bytes: nat, i: nat)
    requires Inv(s) && i < |Send(s, k, bytes).actors| && IsHandler(Send(s, k, bytes).actors[i], DataReturn)
    requires i < |s.actors| ==> Accounted(s, labels, i) == s.actors[i].role.bytes
    requires i >= |s.actors| ==> Total(labels, Synchronous(i)) == Total(labels, GivenBack(i)) == 0
    ensures var t := Send(s, k, bytes); Accounted(t, labels + [Deliver(k, bytes)], i) == t.actors[i].role.bytes
  {
    var t, l := Send(s, k, bytes), Deliver(k, bytes);
    var n := t.actors[i].num;
    TotalAppend(labels, l, Synchronous(i));
    TotalAppend(labels, l, GivenBack(i));
    TotalAppend(s.actors, t.actors[|s.actors|], StartedFor(n));
    if i == |s.actors| {
      NothingStartedFor(s, n);
    }
  }

  // Handler i's bytes are all accounted for; there are none before it exists.
  ghost predicate Tiled(t: State, labels: seq<Label>, i: nat) {
    if i >= |t.actors| then Total(labels, Synchronous(i)) == Total(labels, GivenBack(i)) == 0
    else IsHandler(t.actors[i], DataReturn) ==> Accounted(t, labels, i) == t.actors[i].role.bytes
  }

  lemma StepTiles(s: State, labels: seq<Label>, l: Label, t: State, i: nat)
    requires Inv(s) && Tiled(s, labels, i) && Next(s, l) == Some(t)
    ensures Tiled(t, labels + [l], i)
  {
    LabelsMore(labels, l, i);
    if l.Deliver? {
      if i < |t.actors| && IsHandler(t.actors[i], DataReturn) {
        SendAccounts(s, labels, l.kind, l.bytes, i);
      }
    } else {
      var e := EffectOf(s.vs, l.i, s.actors[l.i], l.choice).value;
      if i < |s.actors| {
        if IsHandler(s.actors[i], DataReturn) {
          ApplyAccounts(s, labels, l.i, l.choice, e, i);
        }
      } else {
        ActsHere(s, l.i, l.choice, e);
        EffectShape(s.vs, l.i, s.actors[l.i], l.choice, e);
      }
    }
  }

  // Every byte of a data return is always accounted for: a device write was started for it, or it was
  // written synchronously, or it was given back after an error, or the handler still has it.
  lemma {:induction false} BytesAreTiled(internal: bool, labels: seq<Label>, i: nat)
    requires After(Start(internal), labels).Some?
    ensures Tiled(After(Start(internal), labels).value, labels, i)
    decreases |labels|
  {
    if labels != [] {
      var m := |labels| - 1;
      var before, l := labels[..m], labels[m];
      assert before + [l] == labels;
      BytesAreTiled(internal, before, i);
      AfterKeepsInv(internal, before);
      StepTiles(After(Start(internal), before).value, before, l, After(Start(internal), labels).value, i);
    }
  }

  // One more step of actor i.
  lemma Continue(s: State, labels: seq<Label>, t: State, i: nat, choice: Choice, e: Effect)
    returns (more: seq<Label>, u: State)
    requires After(s, labels) == Some(t) && i < |t.actors| && !t.vs.panicked
    requires EffectOf(t.vs, i, t.actors[i], choice) == Some(e)
    ensures more == labels + [Act(i, choice)] && After(s, more) == Some(u)
    ensures u.vs == e.vs && |u.actors| == |t.actors| + (if e.spawn.Some? then 1 else 0)
    ensures u.actors[i] == t.actors[i].(pc := e.pc)
    ensures e.spawn.Some? ==> u.actors[|t.actors|] == e.spawn.value
    ensures e.wakes.None? ==> forall j :: 0 <= j < |t.actors| && j != i ==> u.actors[j] == t.actors[j]
    ensures forall j :: 0 <= j < |t.actors| && t.actors[j].pc.Done? ==> j == i || u.actors[j] == t.actors[j]
  {
    AfterOne(s, labels, Act(i, choice));
    more, u := labels + [Act(i, choice)], Apply(t, i, e);
  }

  predicate NeverGivesUp(labels: seq<Label>) {
    forall k :: 0 <= k < |labels| ==> labels[k].Deliver? || !labels[k].choice.GiveUp?
  }

  lemma TwoMore(labels: seq<Label>, l: Label, m: Label)
    ensures labels + [l] + [m] == labels + [l, m]
  {
  }

  // After vs_unlock a write handler has all its bytes before it, and chooses a piece.
  lemma PieceIsChosen(start: State, before: seq<Label>, s: State, i: nat, size: nat)
    returns (labels: seq<Label>, t: State)
    requires After(start, before) == Some(s) && NeverGivesUp(before) && !s.vs.panicked
    requires i < |s.actors| && IsHandler(s.actors[i], DataReturn) && s.actors[i].pc == Bcast(Seqno)
    requires 0 < size <= s.actors[i].role.bytes
    ensures After(start, labels) == Some(t) && NeverGivesUp(labels)
    ensures labels == before + [Act(i, Go), Act(i, Issue(size))]
    ensures t.vs == s.vs && |t.actors| == |s.actors|
    ensures t.actors[i] == s.actors[i].(pc := WantAdd(s.actors[i].role.bytes, size))
  {
    var v, bytes := s.vs, s.actors[i].role.bytes;
    TwoMore(before, Act(i, Go), Act(i, Issue(size)));
    var first, u := Continue(start, before, s, i, Go, Effect(v, Working(bytes), Some(Seqno), None));
    labels, t := Continue(start, first, u, i, Issue(size), Effect(v, WantAdd(bytes, size), None, None));
  }

  lemma PieceIsAdded(start: State, before: seq<Label>, s: State, i: nat, size: nat)
    returns (labels: seq<Label>, t: State)
    requires After(start, before) == Some(s) && NeverGivesUp(before) && !s.vs.panicked && s.vs.holder == NOBODY
    requires i < |s.actors| && IsHandler(s.actors[i], DataReturn)
    requires s.actors[i].pc == WantAdd(s.actors[i].role.bytes, size) && 0 < size <= s.actors[i].role.bytes
    ensures After(start, labels) == Some(t) && NeverGivesUp(labels) && labels == before + [Act(i, Go), Act(i, Go)]
    ensures t.vs == s.vs.(pending := s.vs.pending + size) && |t.actors| == |s.actors| + 1
    ensures t.actors[i] == s.actors[i].(pc := Working(s.actors[i].role.bytes - size))
    ensures t.actors[|s.actors|] == Actor(Completion(size), s.actors[i].num, InFlight)
  {
    var (v, bytes, n) := (s.vs, s.actors[i].role.bytes, s.actors[i].num);
    TwoMore(before, Act(i, Go), Act(i, Go));
    var first, u := Continue(start, before, s, i, Go, Effect(v.(holder := i), HoldAdd(bytes, size), None, None));
    var w, left, reply := v.(pending := v.pending + size), bytes - size, Actor(Completion(size), n, InFlight);
    labels, t := Continue(start, first, u, i, Go, Effect(w, Working(left), None, Some(reply)));
  }

  // From its first working point a write handler can send a piece of any size, as soon as the mutex is
  // free: vs_async_pending rises by that size, and a device write of that size is in flight.
  lemma AnyPieceCanBeSent(start: State, before: seq<Label>, s: State, i: nat, size: nat)
    returns (chosen: seq<Label>, labels: seq<Label>, t: State)
    requires After(start, before) == Some(s) && NeverGivesUp(before) && !s.vs.panicked && s.vs.holder == NOBODY
    requires i < |s.actors| && IsHandler(s.actors[i], DataReturn) && s.actors[i].pc == Bcast(Seqno)
    requires 0 < size <= s.actors[i].role.bytes
    ensures After(start, labels) == Some(t) && NeverGivesUp(labels)
    ensures chosen == before + [Act(i, Go), Act(i, Issue(size))] && labels == chosen + [Act(i, Go), Act(i, Go)]
    ensures t.vs == s.vs.(pending := s.vs.pending + size) && |t.actors| == |s.actors| + 1
    ensures t.actors[i] == s.actors[i].(pc := Working(s.actors[i].role.bytes - size))
    ensures t.actors[|s.actors|] == Actor(Completion(size), s.actors[i].num, InFlight)
  {
    chosen, t := PieceIsChosen(start, before, s, i, size);
    labels, t := PieceIsAdded(start, chosen, t, i, size);
  }

  // A scheduler under which no write handler gives up.
  ghost predicate Restrained(pick: State -> Label) {
    forall s :: pick(s).Deliver? || !pick(s).choice.GiveUp?
  }

  // A label for every step of a run that drains the threads.
  lemma DrainIsRun(internal: bool, before: seq<Label>, s: State, pick: State -> Label) returns (labels: seq<Label>)
    requires After(Start(internal), before) == Some(s) && Inv(s) && Schedules(pick)
    ensures before <= labels && After(Start(internal), labels) == Some(Drain(s, pick))
    ensures NeverGivesUp(before) && Restrained(pick) ==> NeverGivesUp(labels)
    decreases Total(s.actors, Work), Total(s.actors, Retest)
  {
    if AllDone(s) {
      return before;
    }
    DrainStep(internal, before, s, pick);
    labels := DrainIsRun(internal, before + [pick(s)], Next(s, pick(s)).value, pick);
  }

  lemma DrainStep(internal: bool, before: seq<Label>, s: State, pick: State -> Label)
    requires After(Start(internal), before) == Some(s) && Inv(s) && Schedules(pick) && !AllDone(s)
    ensures After(Start(internal), before + [pick(s)]) == Next(s, pick(s)) && Next(s, pick(s)).Some?
    ensures Inv(Next(s, pick(s)).value) && Closer(Next(s, pick(s)).value, s)
    ensures Drain(s, pick) == Drain(Next(s, pick(s)).value, pick)
  {
    NextDescends(s, pick(s));
    WorkIsNat(s);
    AfterOne(Start(internal), before, pick(s));
  }

  // So when the threads are done, every byte of every data return has been sent or given back; and if
  // nothing was given up, every byte has been sent.
  lemma DrainedHasSent(internal: bool, labels: seq<Label>, t: State, i: nat)
    requires After(Start(internal), labels) == Some(t) && AllDone(t)
    requires i < |t.actors| && IsHandler(t.actors[i], DataReturn)
    ensures BytesSent(t, labels, i) + Total(labels, GivenBack(i)) == t.actors[i].role.bytes
    ensures NeverGivesUp(labels) ==> BytesSent(t, labels, i) == t.actors[i].role.bytes
  {
    BytesAreTiled(internal, labels, i);
    assert t.actors[i].pc.Done?;
    if NeverGivesUp(labels) {
      NothingGivenBack(labels, i);
    }
  }

  // What handler i has sent: by device writes that were started for it, or synchronously.
  ghost function BytesSent(t: State, labels: seq<Label>, i: nat): int
    requires i < |t.actors|
  {
    Total(t.actors, StartedFor(t.actors[i].num)) + Total(labels, Synchronous(i))
  }

  lemma NothingGivenBack(labels: seq<Label>, i: nat)
    requires NeverGivesUp(labels)
    ensures Total(labels, GivenBack(i)) == 0
  {
    TotalBounds(labels, GivenBack(i));
  }

  // Under such a scheduler draining sends every byte of every data return.
  lemma DrainSends(internal: bool, before: seq<Label>, s: State, pick: State -> Label, i: nat)
    returns (labels: seq<Label>)
    requires After(Start(internal), before) == Some(s) && Inv(s) && Schedules(pick)
    requires NeverGivesUp(before) && Restrained(pick)
    requires i < |Drain(s, pick).actors| && IsHandler(Drain(s, pick).actors[i], DataReturn)
    ensures After(Start(internal), labels) == Some(Drain(s, pick))
    ensures BytesSent(Drain(s, pick), labels, i) == Drain(s, pick).actors[i].role.bytes
  {
    labels := DrainIsRun(internal, before, s, pick);
    DrainedHasSent(internal, labels, Drain(s, pick), i);
  }

  // A data return is sent to a new object and gets as far as its vs_unlock.
  lemma WriteStarts(bytes: nat) returns (labels: seq<Label>, t: State)
    ensures After(Start(true), labels) == Some(t) && NeverGivesUp(labels)
    ensures t.actors == [Actor(Handler(DataReturn, bytes), 0, Bcast(Seqno))]
    ensures !t.vs.panicked && t.vs.holder == NOBODY && t.vs.writers == 1 && t.vs.pending == 0
  {
    var s, l := Start(true), Deliver(DataReturn, bytes);
    AfterOne(s, [], l);
    labels, t := [] + [l], Send(s, DataReturn, bytes);
    var v := t.vs;
    labels, t := Continue(s, labels, t, 0, Go, Effect(v.(holder := 0), Test(Seqno), None, None));
    labels, t := Continue(s, labels, t, 0, Go, Effect(v.(holder := 0), CheckReq, None, None));
    labels, t := Continue(s, labels, t, 0, Go, Effect(v.(holder := 0, controlRefs := 2), Commit, None, None));
    var w := v.(controlRefs := 2, seqno := 1, turn := 1, writers := 1);
    labels, t := Continue(s, labels, t, 0, Go, Effect(w, Bcast(Seqno), None, None));
  }

  // One more step of one of two actors, which neither starts nor wakes another.
  lemma Alone(start: State, before: seq<Label>, s: State, i: nat, choice: Choice, e: Effect)
    returns (labels: seq<Label>, t: State)
    requires After(start, before) == Some(s) && NeverGivesUp(before) && !s.vs.panicked && |s.actors| == 2 && i < 2
    requires EffectOf(s.vs, i, s.actors[i], choice) == Some(e) && !choice.GiveUp? && e.spawn.None?
    requires e.wakes.Some? ==> !s.actors[1 - i].pc.Sleep?
    ensures After(start, labels) == Some(t) && NeverGivesUp(labels)
    ensures t.vs == e.vs && t.actors == s.actors[i := s.actors[i].(pc := e.pc)]
  {
    labels, t := Continue(start, before, s, i, choice, e);
    assert t.actors[1 - i] == s.actors[1 - i];
  }

  // Its handler writes the rest synchronously...
  lemma RestIsWritten(start: State, before: seq<Label>, s: State, left: nat) returns (labels: seq<Label>, t: State)
    requires After(start, before) == Some(s) && NeverGivesUp(before) && !s.vs.panicked && |s.actors| == 2
    requires IsHandler(s.actors[0], DataReturn) && s.actors[0].pc == Working(left)
    ensures After(start, labels) == Some(t) && NeverGivesUp(labels)
    ensures t.vs == s.vs && t.actors == [s.actors[0].(pc := Working(0)), s.actors[1]]
  {
    labels, t := before, s;
    if left > 0 {
      labels, t := Alone(start, before, s, 0, WriteSync(left), Effect(s.vs, Working(0), None, None));
    }
  }

  // ... and takes the mutex to finish...
  lemma WriteFinishes(start: State, before: seq<Label>, s: State) returns (labels: seq<Label>, t: State)
    requires After(start, before) == Some(s) && NeverGivesUp(before) && !s.vs.panicked && |s.actors| == 2
    requires s.vs.holder == NOBODY && IsHandler(s.actors[0], DataReturn) && s.actors[0].pc == Working(0)
    ensures After(start, labels) == Some(t) && NeverGivesUp(labels)
    ensures t.vs == s.vs.(holder := 0) && t.actors == [s.actors[0].(pc := HoldFinish), s.actors[1]]
  {
    var v := s.vs;
    labels, t := Alone(start, before, s, 0, Go, Effect(v, WantFinish, None, None));
    labels, t := Alone(start, labels, t, 0, Go, Effect(v.(holder := 0), HoldFinish, None, None));
  }

  // ... as the last writer.
  lemma WriteEnds(start: State, before: seq<Label>, s: State) returns (labels: seq<Label>, t: State)
    requires After(start, before) == Some(s) && NeverGivesUp(before) && !s.vs.panicked && |s.actors| == 2
    requires IsHandler(s.actors[0], DataReturn) && s.actors[0].pc == HoldFinish && s.vs.writers == 1
    requires s.actors[1].pc == InFlight
    ensures After(start, labels) == Some(t) && NeverGivesUp(labels)
    ensures t.vs == s.vs.(writers := 0, holder := NOBODY) && t.actors == [s.actors[0].(pc := Done), s.actors[1]]
  {
    var v := s.vs.(writers := 0, holder := NOBODY);
    labels, t := Alone(start, before, s, 0, Go, Effect(v, Bcast(Writers), None, None));
    labels, t := Alone(start, labels, t, 0, Go, Effect(v, Done, Some(Writers), None));
  }

  // The device answers, and the last write in flight is taken off the count.
  lemma ReplyComes(start: State, before: seq<Label>, s: State, size: nat) returns (labels: seq<Label>, t: State)
    requires After(start, before) == Some(s) && NeverGivesUp(before) && !s.vs.panicked && |s.actors| == 2
    requires s.vs.holder == NOBODY && s.actors[1].role == Completion(size) && s.actors[1].pc == InFlight
    ensures After(start, labels) == Some(t) && NeverGivesUp(labels)
    ensures t.vs == s.vs.(holder := 1) && t.actors == [s.actors[0], s.actors[1].(pc := HoldDec)]
  {
    var v := s.vs;
    labels, t := Alone(start, before, s, 1, Go, Effect(v, WantDec, None, None));
    labels, t := Alone(start, labels, t, 1, Go, Effect(v.(holder := 1), HoldDec, None, None));
  }

  lemma ReplyEnds(start: State, before: seq<Label>, s: State, size: nat) returns (labels: seq<Label>, t: State)
    requires After(start, before) == Some(s) && NeverGivesUp(before) && !s.vs.panicked && |s.actors| == 2
    requires s.actors[1].role == Completion(size) && s.actors[1].pc == HoldDec && s.vs.pending == size
    requires s.actors[0].pc == Done
    ensures After(start, labels) == Some(t) && NeverGivesUp(labels)
    ensures t.vs == s.vs.(pending := 0, holder := NOBODY) && t.actors == [s.actors[0], s.actors[1].(pc := Done)]
  {
    var v := s.vs.(pending := 0, holder := NOBODY);
    labels, t := Alone(start, before, s, 1, Go, Effect(v, Bcast(Async), None, None));
    labels, t := Alone(start, labels, t, 1, Go, Effect(v, Done, Some(Async), None));
  }

  // A run in which a data return sends all its bytes: a first part of any size asynchronously, and the
  // rest synchronously.
  lemma AllBytesAreSent(bytes: nat, size: nat) returns (labels: seq<Label>, t: State)
    requires 0 < size <= bytes
    ensures After(Start(true), labels) == Some(t) && AllDone(t) && t.vs.pending == 0
    ensures t.actors == [Actor(Handler(DataReturn, bytes), 0, Done), Actor(Completion(size), 0, Done)]
    ensures Total(t.actors, StartedFor(0)) == size && Total(labels, Synchronous(0)) == bytes - size
  {
    labels, t := WriteIsSent(bytes, size);
    labels, t := WriteFinishes(Start(true), labels, t);
    labels, t := WriteEnds(Start(true), labels, t);
    labels, t := ReplyComes(Start(true), labels, t, size);
    labels, t := ReplyEnds(Start(true), labels, t, size);
    DrainedHasSent(true, labels, t, 0);
    OneStarted(t.actors, bytes, size);
  }

  lemma WriteIsSent(bytes: nat, size: nat) returns (labels: seq<Label>, t: State)
    requires 0 < size <= bytes
    ensures After(Start(true), labels) == Some(t) && NeverGivesUp(labels)
    ensures !t.vs.panicked && t.vs.holder == NOBODY && t.vs.writers == 1 && t.vs.pending == size
    ensures t.actors == [Actor(Handler(DataReturn, bytes), 0, Working(0)), Actor(Completion(size), 0, InFlight)]
  {
    labels, t := WriteStarts(bytes);
    var chosen;
    chosen, labels, t := AnyPieceCanBeSent(Start(true), labels, t, 0, size);
    labels, t := RestIsWritten(Start(true), labels, t, bytes - size);
  }

  lemma OneStarted(actors: seq<Actor>, bytes: nat, size: nat)
    requires actors == [Actor(Handler(DataReturn, bytes), 0, Done), Actor(Completion(size), 0, Done)]
    ensures Total(actors, StartedFor(0)) == size
  {
    TotalAppend([], actors[0], StartedFor(0));
    TotalAppend([actors[0]], actors[1], StartedFor(0));
    assert [] + [actors[0]] == [actors[0]] && [actors[0]] + [actors[1]] == actors;
  }
}
