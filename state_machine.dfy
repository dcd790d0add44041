/** gosiuml's token state machine (`pheno_state_machine.c`): a seven-state
    machine over one `PhenoToken`, advanced by `step_state_machine`. Each step
    is taken as one atomic step (the source holds the machine's mutex for the
    whole of it), so the machine is a sequential object here. */
module PhenoStateMachine {
  import opened Options
  import opened PhenoPlatform

  datatype State = Nil | Allocated | Locked | Active | Degraded | Shared | Freed
  datatype Event = Alloc | Lock | Unlock | Validate | Degrade | Recover | Share | Free
  datatype Substate = NoSubstate | Reading | Writing | Transforming

  /** A `pthread_t`, compared only for equality. */
  type ThreadId = nat

  // ---------------------------------------------------------------------------
  // State and event names
  // ---------------------------------------------------------------------------

  /** The enumerator values `PhenoState` gives its states. */
  function StateCode(s: State): int {
    match s
    case Nil => 0 case Allocated => 1 case Locked => 2 case Active => 3
    case Degraded => 4 case Shared => 5 case Freed => 6
  }

  function EventCode(e: Event): int {
    match e
    case Alloc => 0 case Lock => 1 case Unlock => 2 case Validate => 3
    case Degrade => 4 case Recover => 5 case Share => 6 case Free => 7
  }

  /** `get_state_name`: the table entry for an in-range code, "UNKNOWN" otherwise. */
  function StateName(code: int): (name: string)
    ensures (0 <= code <= 6) <==> name != "UNKNOWN"
  {
    if 0 <= code <= 6 then
      ["NIL", "ALLOCATED", "LOCKED", "ACTIVE", "DEGRADED", "SHARED", "FREED"][code]
    else "UNKNOWN"
  }

  /** `get_event_name`. */
  function EventName(code: int): (name: string)
    ensures (0 <= code <= 7) <==> name != "UNKNOWN"
  {
    if 0 <= code <= 7 then
      ["ALLOC", "LOCK", "UNLOCK", "VALIDATE", "DEGRADE", "RECOVER", "SHARE", "FREE"][code]
    else "UNKNOWN"
  }

  /** Every state and every event has its own name. */
  lemma NamesIdentify(s: State, t: State, e: Event, f: Event)
    ensures StateName(StateCode(s)) == StateName(StateCode(t)) ==> s == t
    ensures EventName(EventCode(e)) == EventName(EventCode(f)) ==> e == f
    ensures StateName(StateCode(s)) != "UNKNOWN" && EventName(EventCode(e)) != "UNKNOWN"
  {
  }

  // ---------------------------------------------------------------------------
  // Token ids
  // ---------------------------------------------------------------------------

  /** One upper-case hexadecimal digit. */
  function HexDigit(d: bv32): (c: char)
    requires d < 16
    ensures ('0' <= c <= '9') || ('A' <= c <= 'F')
  {
    if d < 10 then ('0' as int + d as int) as char else ('A' as int + d as int - 10) as char
  }

  /** `%08X`: eight upper-case hex digits, most significant first. */
  function Hex8(x: bv32): (s: string)
    ensures |s| == 8
    ensures forall i :: 0 <= i < 8 ==> ('0' <= s[i] <= '9') || ('A' <= s[i] <= 'F')
  {
    [HexDigit((x >> 28) & 0xF), HexDigit((x >> 24) & 0xF), HexDigit((x >> 20) & 0xF),
     HexDigit((x >> 16) & 0xF), HexDigit((x >> 12) & 0xF), HexDigit((x >> 8) & 0xF),
     HexDigit((x >> 4) & 0xF), HexDigit(x & 0xF)]
  }

  /** The sentinel `assign_token_id` writes: "PHENO_" and the id in hex, 14
      characters, so it always fits the 16-byte buffer. */
  function SentinelFor(id: bv32): (s: string)
    ensures |s| == 14 && s[..6] == "PHENO_" && s[6..] == Hex8(id)
  {
    "PHENO_" + Hex8(id)
  }

  const FIRST_TOKEN_ID: bv32 := 0x1000_0000

  /** The static counter of `assign_token_id`. */
  class TokenIds {
    var next: bv32

    constructor ()
      ensures next == FIRST_TOKEN_ID
    {
      next := FIRST_TOKEN_ID;
    }
  }

  // ---------------------------------------------------------------------------
  // Tokens
  // ---------------------------------------------------------------------------

  /** Everything of a token the machine reads or writes. */
  datatype TokenView = TokenView(id: bv32, sentinel: string, zone: bv8,
                                 flags: bv32, refCount: bv32, degradation: bv32,
                                 owner: Option<ThreadId>)

  /** `PhenoToken`. Its flag register is a separate object, as the struct
      embeds a `MemFlags` that the inline flag operations take by pointer. */
  class Token {
    var tokenId: bv32
    var sentinel: string
    var memoryZone: bv8
    var threadOwner: Option<ThreadId>
    const mem: MemFlags

    constructor (id: bv32, s: string, zone: bv8)
      ensures View() == TokenView(id, s, zone, 0, 0, 0, None)
      ensures fresh(mem)
    {
      tokenId, sentinel, memoryZone, threadOwner := id, s, zone, None;
      mem := new MemFlags();
    }

    function View(): TokenView
      reads this, mem
    {
      TokenView(tokenId, sentinel, memoryZone, mem.flags, mem.refCount,
                mem.degradationMetrics, threadOwner)
    }
  }

  /** What the allocator `pheno_token_alloc` (not part of this model) does: it
      either fails or hands out a token whose flag words are all zero. */
  datatype Allocation = Exhausted | Granted(id: bv32, sentinel: string, zone: bv8)

  function FreshToken(alloc: Allocation): Option<TokenView> {
    match alloc
    case Exhausted => None
    case Granted(id, s, zone) => Some(TokenView(id, s, zone, 0, 0, 0, None))
  }

  method AllocToken(alloc: Allocation) returns (t: Token?)
    ensures t == null <==> alloc.Exhausted?
    ensures t != null ==> fresh(t) && fresh(t.mem) && Some(t.View()) == FreshToken(alloc)
  {
    match alloc
    case Exhausted => t := null;
    case Granted(id, s, zone) => t := new Token(id, s, zone);
  }

  /** `assign_token_id` on a token's view. */
  function AssignId(t: TokenView, next: bv32): (r: (TokenView, bv32))
    ensures r.0.id == next && r.0.sentinel == SentinelFor(next) && r.1 == next + 1
    ensures r.0 == t.(id := r.0.id, sentinel := r.0.sentinel)
  {
    (t.(id := next, sentinel := SentinelFor(next)), next + 1)
  }

  method AssignTokenId(token: Token, ids: TokenIds)
    modifies token, ids
    ensures (token.View(), ids.next) == AssignId(old(token.View()), old(ids.next))
  {
    token.tokenId := ids.next;
    ids.next := ids.next + 1;
    token.sentinel := SentinelFor(token.tokenId);
  }

  /** Successive assignments hand out consecutive ids starting at 0x10000000. */
  lemma AssignIdsConsecutive(t: TokenView, u: TokenView)
    ensures var t1, n1 := AssignId(t, FIRST_TOKEN_ID).0, AssignId(t, FIRST_TOKEN_ID).1;
            var u1, n2 := AssignId(u, n1).0, AssignId(u, n1).1;
            t1.id == 0x1000_0000 && u1.id == 0x1000_0001 && n2 == 0x1000_0002 &&
            t1.sentinel == "PHENO_10000000" && u1.sentinel == "PHENO_10000001"
  {
  }

  // ---------------------------------------------------------------------------
  // The machine
  // ---------------------------------------------------------------------------

  /** Everything of a machine a step reads or writes. */
  datatype MachineView = MachineView(state: State, substate: Substate,
                                     token: Option<TokenView>, retryCount: bv32,
                                     confidence: real, initialized: bool)

  /** The states whose transitions dereference the token without a null test. */
  predicate NeedsToken(s: State) {
    s == Locked || s == Active || s == Degraded || s == Shared
  }

  /** The machine's token is present wherever a step would dereference it. */
  predicate ValidView(v: MachineView) {
    NeedsToken(v.state) ==> v.token.Some?
  }

  /** `StateMachine`. */
  class StateMachine {
    var currentState: State
    var currentSubstate: Substate
    var token: Token?
    var retryCount: bv32
    var confidenceScore: real
    var isInitialized: bool

    /** `create_state_machine` after a successful `calloc`. */
    constructor ()
      ensures View() == MachineView(Nil, NoSubstate, None, 0, 1.0, false)
    {
      currentState, currentSubstate, token := Nil, NoSubstate, null;
      retryCount, confidenceScore, isInitialized := 0, 1.0, false;
    }

    ghost function Repr(): set<object>
      reads this
    {
      {this} + (if token == null then {} else {token, token.mem})
    }

    function View(): MachineView
      reads Repr()
    {
      MachineView(currentState, currentSubstate,
                  if token == null then None else Some(token.View()),
                  retryCount, confidenceScore, isInitialized)
    }

    predicate Valid()
      reads this
    {
      NeedsToken(currentState) ==> token != null
    }
  }

  /** `create_state_machine`; `callocOk` says whether `calloc` succeeded. */
  method CreateStateMachine(callocOk: bool) returns (sm: StateMachine?)
    ensures callocOk <==> sm != null
    ensures sm != null ==> fresh(sm) && sm.View() == MachineView(Nil, NoSubstate, None, 0, 1.0, false)
  {
    if !callocOk { return null; }
    sm := new StateMachine();
  }

  /** `initialize_state_machine` on a machine's view: the token is replaced by
      the allocator's answer (null on failure) and the machine counts as
      initialised only when a token was handed out. */
  function InitializeSpec(v: MachineView, alloc: Allocation): (r: (bool, MachineView))
    ensures r.0 <==> alloc.Granted?
    ensures r.1.token == FreshToken(alloc)
    ensures r.1.initialized == (v.initialized || alloc.Granted?)
    ensures r.1 == v.(token := r.1.token, initialized := r.1.initialized)
  {
    match alloc
    case Exhausted => (false, v.(token := None))
    case Granted(_, _, _) => (true, v.(token := FreshToken(alloc), initialized := true))
  }

  method InitializeStateMachine(sm: StateMachine?, alloc: Allocation) returns (ok: bool)
    modifies sm
    ensures sm == null ==> !ok
    ensures sm != null ==> (ok, sm.View()) == InitializeSpec(old(sm.View()), alloc)
  {
    if sm == null { return false; }
    sm.token := AllocToken(alloc);
    if sm.token == null { return false; }
    sm.isInitialized := true;
    ok := true;
  }

  // ---------------------------------------------------------------------------
  // Guards and recovery helpers
  // ---------------------------------------------------------------------------

  /** `memory_available`, a placeholder that always answers yes. */
  function MemoryAvailable(): bool { true }

  /** `verify_geometric_proof`: a token is present and its ALLOCATED bit is set. */
  predicate VerifyGeometricProof(t: Option<TokenView>) {
    t.Some? && TestBit(t.value.flags, FLAG_ALLOCATED_BIT)
  }

  /** `verify_integrity`: a token is present and confidence is above 0.3. */
  predicate VerifyIntegrity(v: MachineView) {
    v.token.Some? && v.confidence > 0.3
  }

  /** The token with one flag set, cleared, or its other words replaced. */
  function WithFlag(t: TokenView, b: BitPos): TokenView { t.(flags := SetBit(t.flags, b)) }
  function WithoutFlag(t: TokenView, b: BitPos): TokenView { t.(flags := ClearBit(t.flags, b)) }

  /** The flag word `cleanup_resources` leaves: ALLOCATED, LOCKED and
      PROCESSING clear, every other bit as it was. */
  function ClearCleanupBits(w: bv32): (r: bv32)
    ensures !TestBit(r, FLAG_ALLOCATED_BIT) && !TestBit(r, FLAG_LOCKED_BIT) && !TestBit(r, FLAG_PROCESSING_BIT)
    ensures forall c: BitPos :: c != FLAG_ALLOCATED_BIT && c != FLAG_LOCKED_BIT && c != FLAG_PROCESSING_BIT ==>
              TestBit(r, c) == TestBit(w, c)
  {
    var f1 := ClearBit(w, FLAG_ALLOCATED_BIT);
    var f2 := ClearBit(f1, FLAG_LOCKED_BIT);
    var f3 := ClearBit(f2, FLAG_PROCESSING_BIT);
    assert !TestBit(f3, FLAG_ALLOCATED_BIT) && !TestBit(f3, FLAG_LOCKED_BIT);
    f3
  }

  /** `cleanup_resources`: clears ALLOCATED, LOCKED and PROCESSING when there is
      a token, and changes nothing else. */
  function Cleanup(t: Option<TokenView>): (r: Option<TokenView>)
    ensures r.Some? <==> t.Some?
    ensures r.Some? ==>
              !TestBit(r.value.flags, FLAG_ALLOCATED_BIT) &&
              !TestBit(r.value.flags, FLAG_LOCKED_BIT) &&
              !TestBit(r.value.flags, FLAG_PROCESSING_BIT) &&
              r.value == t.value.(flags := r.value.flags)
    ensures r.Some? ==>
              forall c: BitPos :: c != FLAG_ALLOCATED_BIT && c != FLAG_LOCKED_BIT && c != FLAG_PROCESSING_BIT ==>
                TestBit(r.value.flags, c) == TestBit(t.value.flags, c)
  {
    match t
    case None => None
    case Some(k) => Some(k.(flags := ClearCleanupBits(k.flags)))
  }

  /** `initiate_recovery`: confidence drops by a tenth. */
  function InitiateRecovery(v: MachineView): MachineView {
    v.(confidence := v.confidence * 0.9)
  }

  /** `reset_degradation_metrics`. */
  function ResetDegradation(v: MachineView): MachineView
    requires v.token.Some?
  {
    v.(retryCount := 0, confidence := 1.0, token := Some(v.token.value.(degradation := 0)))
  }

  method CleanupResources(sm: StateMachine)
    modifies sm.Repr()
    ensures sm.token == old(sm.token)
    ensures sm.View() == old(sm.View()).(token := Cleanup(old(sm.View()).token))
  {
    if sm.token != null {
      sm.token.mem.ClearFlag(FLAG_ALLOCATED_BIT);
      sm.token.mem.ClearFlag(FLAG_LOCKED_BIT);
      sm.token.mem.ClearFlag(FLAG_PROCESSING_BIT);
    }
  }

  method InitiateRecoveryStep(sm: StateMachine)
    modifies sm
    ensures sm.token == old(sm.token)
    ensures sm.View() == InitiateRecovery(old(sm.View()))
  {
    sm.confidenceScore := sm.confidenceScore * 0.9;
  }

  method ResetDegradationMetrics(sm: StateMachine)
    requires sm.token != null
    modifies sm, sm.token.mem
    ensures sm.token == old(sm.token)
    ensures sm.View() == ResetDegradation(old(sm.View()))
  {
    sm.retryCount := 0;
    sm.confidenceScore := 1.0;
    sm.token.mem.StoreDegradationMetrics(0);
  }

  // ---------------------------------------------------------------------------
  // Transitions
  // ---------------------------------------------------------------------------

  /** `transition_nil_to_allocated`. On allocator failure the token pointer is
      left null. */
  function NilToAllocated(v: MachineView, alloc: Allocation, next: bv32): (r: (bool, MachineView, bv32))
  {
    if !MemoryAvailable() then (false, v, next)
    else match alloc
      case Exhausted => (false, v.(token := None), next)
      case Granted(_, _, _) =>
        var a := AssignId(FreshToken(alloc).value, next);
        (true, v.(token := Some(WithFlag(a.0, FLAG_ALLOCATED_BIT)), state := Allocated), a.1)
  }

  method TransitionNilToAllocated(sm: StateMachine, alloc: Allocation, ids: TokenIds) returns (ok: bool)
    modifies sm, ids
    ensures var r := NilToAllocated(old(sm.View()), alloc, old(ids.next)); ok == r.0 && sm.View() == r.1 && ids.next == r.2
  {
    if !MemoryAvailable() { return false; }
    sm.token := AllocToken(alloc);
    if sm.token == null { return false; }
    AssignTokenId(sm.token, ids);
    sm.token.mem.SetFlag(FLAG_ALLOCATED_BIT);
    sm.currentState := Allocated;
    ok := true;
  }

  /** `transition_allocated_to_locked`, with its guard as written: the step
      reports failure when `test_and_set_flag` says it acquired the bit. */
  function AllocatedToLocked(v: MachineView, self: ThreadId): (r: (bool, MachineView))
  {
    match v.token
    case None => (false, v)
    case Some(t) =>
      var ts := TestAndSet(t.flags, FLAG_LOCKED_BIT);
      if ts.0 then (false, v.(token := Some(t.(flags := ts.1))))
      else (true, v.(token := Some(t.(flags := ts.1, owner := Some(self))), state := Locked))
  }

  method TransitionAllocatedToLocked(sm: StateMachine, self: ThreadId) returns (ok: bool)
    modifies sm, sm.Repr()
    ensures var r := AllocatedToLocked(old(sm.View()), self); ok == r.0 && sm.View() == r.1
  {
    if sm.token == null { return false; }
    var acquired := sm.token.mem.TestAndSetFlag(FLAG_LOCKED_BIT);
    if acquired { return false; }
    sm.token.threadOwner := Some(self);
    sm.currentState := Locked;
    ok := true;
  }

  /** `transition_locked_to_active`. */
  function LockedToActive(v: MachineView): (r: (bool, MachineView))
  {
    if !VerifyGeometricProof(v.token) then (false, v)
    else (true, v.(token := Some(WithFlag(WithFlag(v.token.value, FLAG_COHERENT_BIT), FLAG_PROCESSING_BIT)),
                   state := Active, substate := Reading))
  }

  method TransitionLockedToActive(sm: StateMachine) returns (ok: bool)
    modifies sm, sm.Repr()
    ensures var r := LockedToActive(old(sm.View())); ok == r.0 && sm.View() == r.1
  {
    if !(sm.token != null && sm.token.mem.TestFlag(FLAG_ALLOCATED_BIT)) { return false; }
    sm.token.mem.SetFlag(FLAG_COHERENT_BIT);
    sm.token.mem.SetFlag(FLAG_PROCESSING_BIT);
    sm.currentState := Active;
    sm.currentSubstate := Reading;
    ok := true;
  }

  /** `transition_active_to_degraded`. The guard `retry_count / 100.0f > 0.6f`
      is the integer test `retry_count > 60`. */
  function ActiveToDegraded(v: MachineView): (r: (bool, MachineView))
    requires v.token.Some?
  {
    if !(v.retryCount > 60) then (false, v)
    else (true, InitiateRecovery(v.(token := Some(WithoutFlag(v.token.value, FLAG_COHERENT_BIT)),
                                    state := Degraded)))
  }

  method TransitionActiveToDegraded(sm: StateMachine) returns (ok: bool)
    requires sm.token != null
    modifies sm, sm.Repr()
    ensures var r := ActiveToDegraded(old(sm.View())); ok == r.0 && sm.View() == r.1
  {
    if !(sm.retryCount > 60) { return false; }
    sm.token.mem.ClearFlag(FLAG_COHERENT_BIT);
    sm.currentState := Degraded;
    InitiateRecoveryStep(sm);
    ok := true;
  }

  /** `transition_degraded_to_active`. */
  function DegradedToActive(v: MachineView): (r: (bool, MachineView))
  {
    if !VerifyIntegrity(v) then (false, v)
    else
      var w := ResetDegradation(v);
      (true, w.(token := Some(WithFlag(w.token.value, FLAG_COHERENT_BIT)), state := Active))
  }

  method TransitionDegradedToActive(sm: StateMachine) returns (ok: bool)
    modifies sm, sm.Repr()
    ensures var r := DegradedToActive(old(sm.View())); ok == r.0 && sm.View() == r.1
  {
    if !(sm.token != null && sm.confidenceScore > 0.3) { return false; }
    ResetDegradationMetrics(sm);
    sm.token.mem.SetFlag(FLAG_COHERENT_BIT);
    sm.currentState := Active;
    ok := true;
  }

  /** `transition_degraded_to_freed`: the token is cleaned up but kept. */
  function DegradedToFreed(v: MachineView): (r: (bool, MachineView))
    requires v.token.Some?
  {
    if v.retryCount < 63 then (false, v)
    else (true, v.(token := Some(WithoutFlag(Cleanup(v.token).value, FLAG_ALLOCATED_BIT)),
                   state := Freed))
  }

  method TransitionDegradedToFreed(sm: StateMachine) returns (ok: bool)
    requires sm.token != null
    modifies sm, sm.Repr()
    ensures var r := DegradedToFreed(old(sm.View())); ok == r.0 && sm.View() == r.1
  {
    if sm.retryCount < 63 { return false; }
    CleanupResources(sm);
    sm.token.mem.ClearFlag(FLAG_ALLOCATED_BIT);
    sm.currentState := Freed;
    ok := true;
  }

  /** `transition_active_to_shared`. */
  function ActiveToShared(v: MachineView): (r: (bool, MachineView))
    requires v.token.Some?
  {
    var t := v.token.value;
    (true, v.(token := Some(WithFlag(t.(refCount := t.refCount + 1), FLAG_SHARED_BIT)),
              state := Shared))
  }

  method TransitionActiveToShared(sm: StateMachine) returns (ok: bool)
    requires sm.token != null
    modifies sm, sm.Repr()
    ensures var r := ActiveToShared(old(sm.View())); ok == r.0 && sm.View() == r.1
  {
    sm.token.mem.IncrementRefCount();
    sm.token.mem.SetFlag(FLAG_SHARED_BIT);
    sm.currentState := Shared;
    ok := true;
  }

  /** `transition_to_freed`: clean up, drop the token, and stop in Freed. */
  function ToFreed(v: MachineView): (r: (bool, MachineView))
  {
    (true, v.(token := None, state := Freed))
  }

  method TransitionToFreed(sm: StateMachine) returns (ok: bool)
    modifies sm, sm.Repr()
    ensures var r := ToFreed(old(sm.View())); ok == r.0 && sm.View() == r.1
  {
    CleanupResources(sm);
    sm.token := null;
    sm.currentState := Freed;
    ok := true;
  }

  // ---------------------------------------------------------------------------
  // step_state_machine
  // ---------------------------------------------------------------------------

  /** Locked + Unlock, written inline in the step function. */
  function Unlocked(v: MachineView): MachineView
    requires v.token.Some?
  {
    v.(token := Some(WithoutFlag(v.token.value, FLAG_LOCKED_BIT)), state := Allocated)
  }

  /** Shared + Free: the reference count always drops, and the token is freed
      only when the count reaches zero. */
  function SharedFree(v: MachineView): (r: (bool, MachineView))
    requires v.token.Some?
  {
    var t := v.token.value;
    var w := v.(token := Some(t.(refCount := t.refCount - 1)));
    if t.refCount - 1 == 0 then ToFreed(w) else (false, w)
  }

  /** The `switch` of `step_state_machine` for each state, on a machine's view:
      whether a transition succeeded and the new view. */
  function NilStep(v: MachineView, e: Event, alloc: Allocation, next: bv32): (bool, MachineView, bv32) {
    if e == Alloc then NilToAllocated(v, alloc, next) else (false, v, next)
  }

  function AllocatedStep(v: MachineView, e: Event, self: ThreadId): (bool, MachineView) {
    if e == Lock then AllocatedToLocked(v, self)
    else if e == Free then ToFreed(v)
    else (false, v)
  }

  function LockedStep(v: MachineView, e: Event): (bool, MachineView)
    requires v.token.Some?
  {
    if e == Validate then LockedToActive(v)
    else if e == Unlock then (true, Unlocked(v))
    else (false, v)
  }

  function ActiveStep(v: MachineView, e: Event): (bool, MachineView)
    requires v.token.Some?
  {
    if e == Degrade then ActiveToDegraded(v)
    else if e == Share then ActiveToShared(v)
    else if e == Free then ToFreed(v)
    else (false, v)
  }

  function DegradedBranch(v: MachineView, e: Event): (bool, MachineView)
    requires v.token.Some?
  {
    if e == Recover then DegradedToActive(v)
    else if e == Free then DegradedToFreed(v)
    else (false, v)
  }

  /** Every event seen in Degraded bumps the retry counter after its branch. */
  function DegradedStep(v: MachineView, e: Event): (bool, MachineView)
    requires v.token.Some?
  {
    var r := DegradedBranch(v, e);
    (r.0, r.1.(retryCount := r.1.retryCount + 1))
  }

  function SharedStep(v: MachineView, e: Event): (bool, MachineView)
    requires v.token.Some?
  {
    if e == Free then SharedFree(v) else (false, v)
  }

  /** One call of `step_state_machine` on a machine's view: whether a
      transition succeeded, the new view, and the new value of the id counter. */
  function StepSpec(v: MachineView, e: Event, alloc: Allocation, next: bv32, self: ThreadId): (r: (bool, MachineView, bv32))
    requires ValidView(v)
  {
    if !v.initialized then (false, v, next)
    else match v.state
      case Nil => NilStep(v, e, alloc, next)
      case Allocated => var r := AllocatedStep(v, e, self); (r.0, r.1, next)
      case Locked => var r := LockedStep(v, e); (r.0, r.1, next)
      case Active => var r := ActiveStep(v, e); (r.0, r.1, next)
      case Degraded => var r := DegradedStep(v, e); (r.0, r.1, next)
      case Shared => var r := SharedStep(v, e); (r.0, r.1, next)
      case Freed => (false, v, next)
  }

  method StepAllocated(sm: StateMachine, event: Event, self: ThreadId) returns (success: bool)
    modifies sm, sm.Repr()
    ensures var r := AllocatedStep(old(sm.View()), event, self); success == r.0 && sm.View() == r.1
  {
    success := false;
    if event == Lock { success := TransitionAllocatedToLocked(sm, self); }
    else if event == Free { success := TransitionToFreed(sm); }
  }

  method StepLocked(sm: StateMachine, event: Event) returns (success: bool)
    requires sm.token != null
    modifies sm, sm.Repr()
    ensures var r := LockedStep(old(sm.View()), event); success == r.0 && sm.View() == r.1
  {
    success := false;
    if event == Validate { success := TransitionLockedToActive(sm); }
    else if event == Unlock {
      sm.token.mem.ClearFlag(FLAG_LOCKED_BIT);
      sm.currentState := Allocated;
      success := true;
    }
  }

  method StepActive(sm: StateMachine, event: Event) returns (success: bool)
    requires sm.token != null
    modifies sm, sm.Repr()
    ensures var r := ActiveStep(old(sm.View()), event); success == r.0 && sm.View() == r.1
  {
    success := false;
    if event == Degrade { success := TransitionActiveToDegraded(sm); }
    else if event == Share { success := TransitionActiveToShared(sm); }
    else if event == Free { success := TransitionToFreed(sm); }
  }

  method StepDegradedBranch(sm: StateMachine, event: Event) returns (success: bool)
    requires sm.token != null
    modifies sm, sm.Repr()
    ensures var r := DegradedBranch(old(sm.View()), event); success == r.0 && sm.View() == r.1
  {
    success := false;
    if event == Recover { success := TransitionDegradedToActive(sm); }
    else if event == Free { success := TransitionDegradedToFreed(sm); }
  }

  /** `sm->retry_count++`; nothing else changes. */
  method BumpRetryCount(sm: StateMachine)
    modifies sm`retryCount
    ensures sm.View() == old(sm.View()).(retryCount := old(sm.retryCount) + 1)
  {
    sm.retryCount := sm.retryCount + 1;
  }

  method StepDegraded(sm: StateMachine, event: Event) returns (success: bool)
    requires sm.token != null
    modifies sm, sm.Repr()
    ensures var r := DegradedStep(old(sm.View()), event); success == r.0 && sm.View() == r.1
  {
    success := StepDegradedBranch(sm, event);
    BumpRetryCount(sm);
  }

  method StepShared(sm: StateMachine, event: Event) returns (success: bool)
    requires sm.token != null
    modifies sm, sm.Repr()
    ensures var r := SharedStep(old(sm.View()), event); success == r.0 && sm.View() == r.1
  {
    success := false;
    if event == Free {
      var refs := sm.token.mem.DecrementRefCount();
      if refs == 0 { success := TransitionToFreed(sm); }
    }
  }

  /** `step_state_machine`. A null or uninitialised machine is left alone;
      otherwise the machine, its token and the id counter end as `StepSpec`
      says. */
  method StepStateMachine(sm: StateMachine?, event: Event, alloc: Allocation, ids: TokenIds, self: ThreadId)
    returns (success: bool)
    requires sm != null ==> sm.Valid()
    modifies (if sm != null then sm.Repr() else {}), ids
    ensures sm == null ==> !success && ids.next == old(ids.next)
    ensures sm != null ==> sm.Valid()
    ensures sm != null ==>
              var r := StepSpec(old(sm.View()), event, alloc, old(ids.next), self);
              success == r.0 && sm.View() == r.1 && ids.next == r.2
  {
    if sm == null || !sm.isInitialized { return false; }
    ghost var v := sm.View();
    success := false;
    match sm.currentState {
      case Nil =>
        if event == Alloc { success := TransitionNilToAllocated(sm, alloc, ids); }
      case Allocated => success := StepAllocated(sm, event, self);
      case Locked => success := StepLocked(sm, event);
      case Active => success := StepActive(sm, event);
      case Degraded => success := StepDegraded(sm, event);
      case Shared => success := StepShared(sm, event);
      case Freed =>
    }
    StepPreservesValid(v, event, alloc, old(ids.next), self);
  }

  // ---------------------------------------------------------------------------
  // Properties of a step
  // ---------------------------------------------------------------------------

  lemma StepPreservesValid(v: MachineView, e: Event, alloc: Allocation, next: bv32, self: ThreadId)
    requires ValidView(v)
    ensures ValidView(StepSpec(v, e, alloc, next, self).1)
  {
    if v.initialized {
      match v.state
      case Nil =>
      case Allocated =>
      case Locked =>
      case Active =>
      case Degraded =>
        assert DegradedBranch(v, e).1.token.Some?;
      case Shared =>
      case Freed =>
    }
  }

  /** A machine that was never initialised ignores every event. */
  lemma StepUninitialized(v: MachineView, e: Event, alloc: Allocation, next: bv32, self: ThreadId)
    requires ValidView(v) && !v.initialized
    ensures StepSpec(v, e, alloc, next, self) == (false, v, next)
  {
  }

  /** Freed is terminal. */
  lemma FreedIsTerminal(v: MachineView, e: Event, alloc: Allocation, next: bv32, self: ThreadId)
    requires ValidView(v) && v.state == Freed
    ensures StepSpec(v, e, alloc, next, self) == (false, v, next)
  {
  }

  /** The (state, event) pairs the `switch` has a branch for. */
  predicate Handled(s: State, e: Event) {
    match s
    case Nil => e == Alloc
    case Allocated => e == Lock || e == Free
    case Locked => e == Validate || e == Unlock
    case Active => e == Degrade || e == Share || e == Free
    case Degraded => e == Recover || e == Free
    case Shared => e == Free
    case Freed => false
  }

  /** An event the current state has no branch for changes nothing, except
      that Degraded still counts it as a retry. */
  lemma UnhandledEventsChangeNothing(v: MachineView, e: Event, alloc: Allocation, next: bv32, self: ThreadId)
    requires ValidView(v) && !Handled(v.state, e)
    ensures v.state != Degraded ==> StepSpec(v, e, alloc, next, self) == (false, v, next)
    ensures v.state == Degraded && v.initialized ==>
              StepSpec(v, e, alloc, next, self) == (false, v.(retryCount := v.retryCount + 1), next)
  {
  }

  /** Nil + Alloc: on success the fresh token carries the next id, its
      sentinel and only the ALLOCATED bit, and the counter moves on by one; on
      allocator failure the machine stays in Nil with a null token. */
  lemma AllocFromNil(v: MachineView, alloc: Allocation, next: bv32, self: ThreadId)
    requires ValidView(v) && v.initialized && v.state == Nil
    ensures var r := StepSpec(v, Alloc, alloc, next, self); var ok, w, n := r.0, r.1, r.2;
            (ok <==> alloc.Granted?) &&
            (alloc.Granted? ==>
               w == v.(state := Allocated,
                       token := Some(TokenView(next, SentinelFor(next), alloc.zone,
                                               Bit(FLAG_ALLOCATED_BIT), 0, 0, None))) &&
               n == next + 1) &&
            (alloc.Exhausted? ==> w == v.(token := None) && n == next)
  {
  }

  /** Allocated + Lock as written: when the LOCKED bit is clear the event sets
      it but reports failure and stays in Allocated; only when it was already
      set does the machine record the owner and move to Locked. */
  lemma LockFromAllocated(v: MachineView, alloc: Allocation, next: bv32, self: ThreadId)
    requires ValidView(v) && v.initialized && v.state == Allocated
    ensures var r := StepSpec(v, Lock, alloc, next, self); var ok, w, n := r.0, r.1, r.2;
            n == next &&
            (v.token.None? ==> !ok && w == v) &&
            (v.token.Some? && !TestBit(v.token.value.flags, FLAG_LOCKED_BIT) ==>
               !ok && w == v.(token := Some(WithFlag(v.token.value, FLAG_LOCKED_BIT)))) &&
            (v.token.Some? && TestBit(v.token.value.flags, FLAG_LOCKED_BIT) ==>
               ok && w == v.(state := Locked, token := Some(v.token.value.(owner := Some(self)))))
  {
    if v.token.Some? && TestBit(v.token.value.flags, FLAG_LOCKED_BIT) {
      assert SetBit(v.token.value.flags, FLAG_LOCKED_BIT) == v.token.value.flags;
    }
  }

  /** Locked + Unlock clears LOCKED, keeps every other bit and returns to Allocated. */
  lemma UnlockFromLocked(v: MachineView, alloc: Allocation, next: bv32, self: ThreadId)
    requires ValidView(v) && v.initialized && v.state == Locked
    ensures var r := StepSpec(v, Unlock, alloc, next, self); var ok, w, n := r.0, r.1, r.2;
            ok && n == next && w.state == Allocated && w.token.Some? &&
            !TestBit(w.token.value.flags, FLAG_LOCKED_BIT) &&
            (forall c: BitPos :: c != FLAG_LOCKED_BIT ==>
               TestBit(w.token.value.flags, c) == TestBit(v.token.value.flags, c)) &&
            w == v.(state := Allocated, token := w.token) &&
            w.token.value == v.token.value.(flags := w.token.value.flags)
  {
  }

  /** Locked + Validate moves to Active exactly when the token's ALLOCATED bit
      is set, and then sets COHERENT and PROCESSING and the Reading substate. */
  lemma ValidateFromLocked(v: MachineView, alloc: Allocation, next: bv32, self: ThreadId)
    requires ValidView(v) && v.initialized && v.state == Locked
    ensures var r := StepSpec(v, Validate, alloc, next, self); var ok, w, n := r.0, r.1, r.2;
            n == next &&
            (ok <==> TestBit(v.token.value.flags, FLAG_ALLOCATED_BIT)) &&
            (ok ==> w.state == Active && w.substate == Reading && w.token.Some? &&
                    TestBit(w.token.value.flags, FLAG_COHERENT_BIT) &&
                    TestBit(w.token.value.flags, FLAG_PROCESSING_BIT) &&
                    TestBit(w.token.value.flags, FLAG_ALLOCATED_BIT)) &&
            (!ok ==> w == v)
  {
  }

  /** Active + Degrade succeeds exactly when more than 60 retries were seen; it
      clears COHERENT and takes a tenth off the confidence. */
  lemma DegradeFromActive(v: MachineView, alloc: Allocation, next: bv32, self: ThreadId)
    requires ValidView(v) && v.initialized && v.state == Active
    ensures var r := StepSpec(v, Degrade, alloc, next, self); var ok, w, n := r.0, r.1, r.2;
            n == next &&
            (ok <==> v.retryCount > 60) &&
            (ok ==> w.state == Degraded && w.confidence == v.confidence * 0.9 &&
                    w.retryCount == v.retryCount && w.token.Some? &&
                    !TestBit(w.token.value.flags, FLAG_COHERENT_BIT)) &&
            (!ok ==> w == v)
  {
  }

  /** Active + Share adds a reference and sets SHARED. */
  lemma ShareFromActive(v: MachineView, alloc: Allocation, next: bv32, self: ThreadId)
    requires ValidView(v) && v.initialized && v.state == Active
    ensures var r := StepSpec(v, Share, alloc, next, self); var ok, w, n := r.0, r.1, r.2;
            ok && n == next && w.state == Shared && w.token.Some? &&
            w.token.value.refCount == v.token.value.refCount + 1 &&
            TestBit(w.token.value.flags, FLAG_SHARED_BIT) &&
            w.retryCount == v.retryCount && w.confidence == v.confidence
  {
  }

  /** No event taken in Active touches the retry counter. */
  lemma ActiveKeepsRetryCount(v: MachineView, e: Event, alloc: Allocation, next: bv32, self: ThreadId)
    requires ValidView(v) && v.state == Active
    ensures StepSpec(v, e, alloc, next, self).1.retryCount == v.retryCount
  {
  }

  /** Degraded + Recover: when integrity holds the metrics are reset and COHERENT
      set, and the increment after the branch leaves one retry on the counter. */
  lemma RecoverFromDegraded(v: MachineView, alloc: Allocation, next: bv32, self: ThreadId)
    requires ValidView(v) && v.initialized && v.state == Degraded
    ensures var r := StepSpec(v, Recover, alloc, next, self); var ok, w, n := r.0, r.1, r.2;
            n == next &&
            (ok <==> v.confidence > 0.3) &&
            (ok ==> w.state == Active && w.retryCount == 1 && w.confidence == 1.0 &&
                    w.token.Some? && w.token.value.degradation == 0 &&
                    TestBit(w.token.value.flags, FLAG_COHERENT_BIT)) &&
            (!ok ==> w == v.(retryCount := v.retryCount + 1))
  {
  }

  /** Degraded + Free succeeds exactly when 63 or more retries were seen before
      the increment; the token is cleaned up but stays attached. */
  lemma FreeFromDegraded(v: MachineView, alloc: Allocation, next: bv32, self: ThreadId)
    requires ValidView(v) && v.initialized && v.state == Degraded
    ensures var r := StepSpec(v, Free, alloc, next, self); var ok, w, n := r.0, r.1, r.2;
            n == next && w.retryCount == v.retryCount + 1 &&
            (ok <==> v.retryCount >= 63) &&
            (ok ==> w.state == Freed && w.token.Some? &&
                    !TestBit(w.token.value.flags, FLAG_ALLOCATED_BIT) &&
                    !TestBit(w.token.value.flags, FLAG_LOCKED_BIT) &&
                    !TestBit(w.token.value.flags, FLAG_PROCESSING_BIT)) &&
            (!ok ==> w == v.(retryCount := v.retryCount + 1))
  {
    StepSpecDegraded(v, Free, alloc, next, self);
    DegradedToFreedClears(v);
  }

  /** In Degraded, a step is the branch the event selects followed by the
      retry increment, and the id counter stays. */
  lemma StepSpecDegraded(v: MachineView, e: Event, alloc: Allocation, next: bv32, self: ThreadId)
    requires ValidView(v) && v.initialized && v.state == Degraded
    ensures StepSpec(v, e, alloc, next, self).0 == DegradedBranch(v, e).0
    ensures StepSpec(v, e, alloc, next, self).1
            == DegradedBranch(v, e).1.(retryCount := DegradedBranch(v, e).1.retryCount + 1)
    ensures StepSpec(v, e, alloc, next, self).2 == next
  {
  }

  lemma DegradedToFreedClears(v: MachineView)
    requires v.token.Some?
    ensures var r := DegradedToFreed(v); var ok, w := r.0, r.1;
            (ok <==> v.retryCount >= 63) &&
            (ok ==> w.state == Freed && w.token.Some? && w.retryCount == v.retryCount &&
                    !TestBit(w.token.value.flags, FLAG_ALLOCATED_BIT) &&
                    !TestBit(w.token.value.flags, FLAG_LOCKED_BIT) &&
                    !TestBit(w.token.value.flags, FLAG_PROCESSING_BIT)) &&
            (!ok ==> w == v)
  {
  }

  /** Shared + Free always drops a reference, and frees the token exactly when
      the count was one. */
  lemma FreeFromShared(v: MachineView, alloc: Allocation, next: bv32, self: ThreadId)
    requires ValidView(v) && v.initialized && v.state == Shared
    ensures var r := StepSpec(v, Free, alloc, next, self); var ok, w, n := r.0, r.1, r.2;
            n == next &&
            (ok <==> v.token.value.refCount == 1) &&
            (ok ==> w == v.(state := Freed, token := None)) &&
            (!ok ==> w == v.(token := Some(v.token.value.(refCount := v.token.value.refCount - 1))))
  {
  }

  /** Allocated + Free and Active + Free release the token and stop in Freed. */
  lemma FreeFromAllocatedOrActive(v: MachineView, alloc: Allocation, next: bv32, self: ThreadId)
    requires ValidView(v) && v.initialized && (v.state == Allocated || v.state == Active)
    ensures StepSpec(v, Free, alloc, next, self) == (true, v.(state := Freed, token := None), next)
  {
  }

  /** The command-line demo's Alloc, Lock, Validate: the Lock guard sets the
      LOCKED bit but reports failure, so the machine is still Allocated when
      Validate arrives, and Allocated has no branch for Validate. */
  lemma AllocLockValidateStaysAllocated(v: MachineView, alloc: Allocation, next: bv32, self: ThreadId)
    requires ValidView(v) && v.initialized && v.state == Nil && alloc.Granted?
    ensures var s1 := StepSpec(v, Alloc, alloc, next, self);
            var s2 := StepSpec(s1.1, Lock, alloc, s1.2, self);
            var s3 := StepSpec(s2.1, Validate, alloc, s2.2, self);
            s1.0 && !s2.0 && !s3.0 && s3.1 == s2.1 && s3.1.state == Allocated &&
            s3.1.token.Some? && TestBit(s3.1.token.value.flags, FLAG_LOCKED_BIT) &&
            TestBit(s3.1.token.value.flags, FLAG_ALLOCATED_BIT)
  {
    AllocFromNil(v, alloc, next, self);
    var s1 := StepSpec(v, Alloc, alloc, next, self);
    assert !TestBit(s1.1.token.value.flags, FLAG_LOCKED_BIT) by {
      assert s1.1.token.value.flags == Bit(FLAG_ALLOCATED_BIT);
    }
    LockFromAllocated(s1.1, alloc, s1.2, self);
    UnhandledEventsChangeNothing(StepSpec(s1.1, Lock, alloc, s1.2, self).1, Validate, alloc, s1.2, self);
  }

  /** From 61 retries in Degraded, the first two Free events fail (each still
      counting a retry) and the third reaches Freed. */
  lemma ThirdFreeFromDegraded(v: MachineView, alloc: Allocation, next: bv32, self: ThreadId)
    requires ValidView(v) && v.initialized && v.state == Degraded && v.retryCount == 61
    ensures var s1 := StepSpec(v, Free, alloc, next, self);
            var s2 := StepSpec(s1.1, Free, alloc, next, self);
            var s3 := StepSpec(s2.1, Free, alloc, next, self);
            !s1.0 && !s2.0 && s3.0 && s1.1.state == Degraded && s2.1.state == Degraded &&
            s3.1.state == Freed && s3.1.retryCount == 64
  {
    FreeFromDegraded(v, alloc, next, self);
    var s1 := StepSpec(v, Free, alloc, next, self);
    FreeFromDegraded(s1.1, alloc, next, self);
    var s2 := StepSpec(s1.1, Free, alloc, next, self);
    FreeFromDegraded(s2.1, alloc, next, self);
  }

  // ---------------------------------------------------------------------------
  // What every step preserves
  // ---------------------------------------------------------------------------

  /** Holds for every view reachable by steps from a freshly initialised
      machine: the confidence is 1.0 outside Degraded and 0.9 inside it (Freed
      keeps whichever it had), the token of a live state holds its ALLOCATED
      bit, and a Locked token holds its LOCKED bit and an owner. */
  predicate Inv(v: MachineView) {
    ValidView(v) &&
    (v.state == Degraded ==> v.confidence == 0.9) &&
    (v.state != Degraded && v.state != Freed ==> v.confidence == 1.0) &&
    (v.state == Freed ==> v.confidence == 1.0 || v.confidence == 0.9) &&
    (Live(v.state) ==> v.token.Some? && TestBit(v.token.value.flags, FLAG_ALLOCATED_BIT)) &&
    (v.state == Locked ==> TestBit(v.token.value.flags, FLAG_LOCKED_BIT) && v.token.value.owner.Some?)
  }

  predicate Live(s: State) {
    s == Allocated || NeedsToken(s)
  }

  /** The view `create_state_machine` and a successful `initialize_state_machine` leave. */
  lemma InitialViewSatisfiesInv(alloc: Allocation)
    requires alloc.Granted?
    ensures var r := InitializeSpec(MachineView(Nil, NoSubstate, None, 0, 1.0, false), alloc); var ok, v := r.0, r.1;
            ok && v.initialized && v.state == Nil && Inv(v)
  {
  }

  lemma StepPreservesInv(v: MachineView, e: Event, alloc: Allocation, next: bv32, self: ThreadId)
    requires Inv(v)
    ensures Inv(StepSpec(v, e, alloc, next, self).1)
  {
    if v.initialized {
      match v.state
      case Nil =>
        if e == Alloc { AllocFromNil(v, alloc, next, self); }
      case Allocated => InvAfterAllocated(v, e, alloc, next, self);
      case Locked => InvAfterLocked(v, e, alloc, next, self);
      case Active => InvAfterActive(v, e, alloc, next, self);
      case Degraded => InvAfterDegraded(v, e, alloc, next, self);
      case Shared =>
        if e == Free { FreeFromShared(v, alloc, next, self); }
      case Freed =>
    }
  }

  lemma InvAfterAllocated(v: MachineView, e: Event, alloc: Allocation, next: bv32, self: ThreadId)
    requires Inv(v) && v.initialized && v.state == Allocated
    ensures Inv(StepSpec(v, e, alloc, next, self).1)
  {
    if e == Lock {
      LockFromAllocated(v, alloc, next, self);
      assert TestBit(SetBit(v.token.value.flags, FLAG_LOCKED_BIT), FLAG_ALLOCATED_BIT);
    }
  }

  lemma InvAfterLocked(v: MachineView, e: Event, alloc: Allocation, next: bv32, self: ThreadId)
    requires Inv(v) && v.initialized && v.state == Locked
    ensures Inv(StepSpec(v, e, alloc, next, self).1)
  {
    if e == Validate { ValidateFromLocked(v, alloc, next, self); }
    else if e == Unlock { UnlockFromLocked(v, alloc, next, self); }
  }

  lemma InvAfterActive(v: MachineView, e: Event, alloc: Allocation, next: bv32, self: ThreadId)
    requires Inv(v) && v.initialized && v.state == Active
    ensures Inv(StepSpec(v, e, alloc, next, self).1)
  {
    if e == Degrade {
      DegradeFromActive(v, alloc, next, self);
      assert TestBit(ClearBit(v.token.value.flags, FLAG_COHERENT_BIT), FLAG_ALLOCATED_BIT);
    } else if e == Share {
      assert TestBit(SetBit(v.token.value.flags, FLAG_SHARED_BIT), FLAG_ALLOCATED_BIT);
    }
  }

  lemma InvAfterDegraded(v: MachineView, e: Event, alloc: Allocation, next: bv32, self: ThreadId)
    requires Inv(v) && v.initialized && v.state == Degraded
    ensures Inv(StepSpec(v, e, alloc, next, self).1)
  {
    StepSpecDegraded(v, e, alloc, next, self);
    if e == Recover {
      InvAfterRecover(v);
    } else if e == Free {
      InvAfterDegradedFree(v);
    }
    InvIgnoresRetryCount(DegradedBranch(v, e).1, DegradedBranch(v, e).1.retryCount + 1);
  }

  lemma InvAfterRecover(v: MachineView)
    requires Inv(v) && v.state == Degraded
    ensures Inv(DegradedToActive(v).1)
  {
    assert TestBit(SetBit(v.token.value.flags, FLAG_COHERENT_BIT), FLAG_ALLOCATED_BIT);
  }

  lemma InvAfterDegradedFree(v: MachineView)
    requires Inv(v) && v.state == Degraded
    ensures Inv(DegradedToFreed(v).1)
  {
  }

  /** The invariant says nothing about the retry counter. */
  lemma InvIgnoresRetryCount(v: MachineView, c: bv32)
    requires Inv(v)
    ensures Inv(v.(retryCount := c))
  {
  }

  /** Under the invariant Recover's integrity guard never fails, and neither
      does Validate's geometric-proof guard. */
  lemma GuardsNeverFailUnderInv(v: MachineView, alloc: Allocation, next: bv32, self: ThreadId)
    requires Inv(v) && v.initialized
    ensures v.state == Degraded ==> StepSpec(v, Recover, alloc, next, self).0
    ensures v.state == Locked ==> StepSpec(v, Validate, alloc, next, self).0
  {
    if v.state == Degraded { RecoverFromDegraded(v, alloc, next, self); }
    if v.state == Locked { ValidateFromLocked(v, alloc, next, self); }
  }
}
