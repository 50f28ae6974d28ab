/** The delay schedules of the model fixture. Every operation runs under a lock, so an interleaving is a sequence of
    operations; items and calls are compared by identity. */
module Schedules {
  import opened Wrappers
  import opened Text

  datatype Kind = Summary | Question | AutoTag | Other

  datatype Stage = Armed | Claimed | Waiting | Finished | Disconnected

  /** One armed delay. */
  class Item {
    const operation: string
    const kind: Kind
    const delay: real
    var stage: Stage
    /** Number of the request that took the item. */
    var claimed: nat
    /** The event that ends the delay early. */
    var released: bool

    constructor (operation: string, kind: Kind, delay: real)
      ensures this.operation == operation && this.kind == kind && this.delay == delay
      ensures stage == Armed && !released
    {
      this.operation, this.kind, this.delay := operation, kind, delay;
      stage, claimed, released := Armed, 0, false;
    }
  }

  predicate DelayOk(seconds: real, maximum: nat) {
    0.0 < seconds <= maximum as real
  }

  // ----- one model stream

  class StreamSchedule {
    const maximum: nat
    var pending: Item?
    var active: Item?
    var last: Item?
    var sequence: nat

    constructor (maximum: nat)
      requires maximum <= 20
      ensures Valid() && this.maximum == maximum && pending == active == last == null && sequence == 0
    {
      this.maximum, pending, active, last, sequence := maximum, null, null, null, 0;
    }

    /** Never both armed and claimed, and each slot holds an item of its stage. */
    ghost predicate Valid()
      reads this, pending, active, last
    {
      && (pending == null || active == null)
      && (pending != null ==> pending.stage == Armed && pending != last && DelayOk(pending.delay, maximum))
      && (active != null ==> active.stage in {Claimed, Waiting} && active != last && 0 < active.claimed <= sequence)
      && (last != null ==> last.stage in {Finished, Disconnected} && 0 < last.claimed <= sequence)
      && (active != null && last != null ==> last.claimed < active.claimed)
    }

    /** The item that the status shows. */
    function Current(): Item?
      reads this
    {
      if active != null then active else if pending != null then pending else last
    }

    /** A repeated request with the same operation and delay changes nothing; another one is refused. */
    method Arm(operation: string, seconds: real) returns (ok: bool)
      requires Valid()
      modifies this`pending
      ensures Valid()
      ensures ok <==> Uuid(operation) && 0.0 < seconds <= maximum as real
                      && (old(Busy()) ==> old(Current()).operation == operation && old(Current()).delay == seconds)
      ensures !ok || old(Busy()) ==> pending == old(pending)
      ensures ok && !old(Busy()) ==> pending != null && fresh(pending) && pending.operation == operation
                                     && pending.delay == seconds
    {
      if !Uuid(operation) || !DelayOk(seconds, maximum) {
        return false;
      }
      var current := if active != null then active else pending;
      if current != null {
        return current.operation == operation && current.delay == seconds;
      }
      pending := new Item(operation, Other, seconds);
      ok := true;
    }

    predicate Busy()
      reads this
    {
      active != null || pending != null
    }

    /** Every stream counts; the first one after arming takes the item. */
    method Claim() returns (item: Item?)
      requires Valid()
      modifies this, pending
      ensures Valid() && sequence == old(sequence) + 1 && last == old(last) && pending == null
      ensures item == old(pending)
      ensures active == if old(pending) != null then old(pending) else old(active)
      ensures item != null ==>
                && item.stage == Claimed && item.claimed == sequence
                && item.released == old(pending.released)
    {
      sequence := sequence + 1;
      if pending == null {
        return null;
      }
      item := pending;
      active, pending := pending, null;
      item.stage, item.claimed := Claimed, sequence;
    }

    method FirstFlushed(item: Item) returns (ok: bool)
      requires Valid()
      modifies active
      ensures Valid() && (ok <==> item == active) && (ok ==> item.stage == Waiting)
      ensures active != null ==> active.claimed == old(active.claimed) && active.released == old(active.released)
    {
      ok := active == item;
      if ok {
        item.stage := Waiting;
      }
    }

    method Release(operation: string) returns (ok: bool)
      requires Valid()
      modifies active, pending
      ensures Valid() && (ok <==> old(Busy()) && old(Current()).operation == operation)
      ensures ok ==> Current().released
    {
      var item := if active != null then active else pending;
      if item == null || item.operation != operation {
        return false;
      }
      item.released := true;
      ok := true;
    }

    /** Only the claimed item can finish, and it frees the slot. */
    method Finish(item: Item, succeeded: bool) returns (ok: bool)
      requires Valid()
      modifies this`active, this`last, active
      ensures Valid() && (ok <==> item == old(active))
      ensures ok ==> active == null && last == item && item.stage == if succeeded then Finished else Disconnected
      ensures !ok ==> active == old(active) && last == old(last)
    {
      ok := active == item;
      if ok {
        item.stage := if succeeded then Finished else Disconnected;
        last, active := item, null;
      }
    }
  }

  /** Refuses a maximum that is out of range. */
  method NewStreamSchedule(maximum: int) returns (s: StreamSchedule?)
    ensures s == null <==> !(0 <= maximum <= 20)
    ensures s != null ==> fresh(s) && s.Valid() && s.maximum == maximum && s.active == s.pending == null
  {
    s := null;
    if 0 <= maximum <= 20 {
      s := new StreamSchedule(maximum);
    }
  }

  /** What may happen to a stream schedule. Streams are named by the order in which they claimed an item. */
  datatype StreamEvent =
    | ArmStream(operation: string, seconds: real)
    | ClaimStream
    | FlushStream(n: nat)
    | ReleaseStream(operation: string)
    | FinishStream(n: nat, succeeded: bool)

  /** How many of the first `k` events were streams that claimed an item. */
  function Claims(events: seq<StreamEvent>, answers: seq<bool>, k: nat): nat
    requires k <= |events| && k <= |answers|
  {
    if k == 0 then 0
    else Claims(events, answers, k - 1) + if events[k - 1].ClaimStream? && answers[k - 1] then 1 else 0
  }

  /** Stream `n` has finished before event `k`. */
  predicate StreamFinished(events: seq<StreamEvent>, answers: seq<bool>, k: nat, n: nat)
    requires k <= |events| && k <= |answers|
  {
    exists j | 0 <= j < k :: events[j].FinishStream? && events[j].n == n && answers[j]
  }

  /** A flush or a finish goes well exactly for a stream that has claimed an item and has not finished. */
  predicate StreamAnswered(events: seq<StreamEvent>, answers: seq<bool>, k: nat)
    requires k < |events| && k < |answers|
  {
    match events[k]
    case FlushStream(n) => answers[k] <==> n < Claims(events, answers, k) && !StreamFinished(events, answers, k, n)
    case FinishStream(n, _) => answers[k] <==> n < Claims(events, answers, k) && !StreamFinished(events, answers, k, n)
    case _ => true
  }

  lemma {:induction false} ClaimsOfPrefix(events: seq<StreamEvent>, answers: seq<bool>, more: seq<bool>, k: nat)
    requires k <= |events| && k <= |answers| && answers <= more
    ensures Claims(events, more, k) == Claims(events, answers, k)
  {
    if k > 0 {
      ClaimsOfPrefix(events, answers, more, k - 1);
    }
  }

  lemma StreamStep(events: seq<StreamEvent>, answers: seq<bool>, ok: bool, more: seq<bool>, next: nat)
    requires |answers| < |events| && more == answers + [ok] && next == |more|
    requires forall j | 0 <= j < |answers| :: StreamAnswered(events, answers, j)
    requires var k := |answers|;
             match events[k]
             case FlushStream(n) => ok <==> n < Claims(events, answers, k) && !StreamFinished(events, answers, k, n)
             case FinishStream(n, _) => ok <==> n < Claims(events, answers, k) && !StreamFinished(events, answers, k, n)
             case _ => true
    ensures var e := events[|answers|];
            && (forall j | 0 <= j < next :: StreamAnswered(events, more, j))
            && Claims(events, more, next)
               == Claims(events, answers, |answers|) + (if e.ClaimStream? && ok then 1 else 0)
            && forall n :: StreamFinished(events, more, next, n)
                           <==> StreamFinished(events, answers, |answers|, n) || (e.FinishStream? && e.n == n && ok)
  {
    var k := |answers|;
    ClaimsOfPrefix(events, answers, more, k);
    assert forall j | 0 <= j < k :: more[j] == answers[j];
    forall j | 0 <= j < next ensures StreamAnswered(events, more, j) {
      ClaimsOfPrefix(events, answers, more, j);
      assert j < k ==> StreamAnswered(events, answers, j);
    }
    forall n ensures StreamFinished(events, more, next, n)
                <==> StreamFinished(events, answers, k, n)
                     || (events[k].FinishStream? && events[k].n == n && ok) {
      if StreamFinished(events, answers, k, n) {
        var j :| 0 <= j < k && events[j].FinishStream? && events[j].n == n && answers[j];
        assert more[j];
      }
    }
  }

  /** Under every interleaving, a stream that claimed an item and has not finished finds it in place, and no other one
      does: exactly its flushes and its one finish meet no identity error. */
  method InterleaveStreams(s: StreamSchedule, events: seq<StreamEvent>) returns (answers: seq<bool>)
    requires s.Valid() && s.active == null
    modifies s, s.pending
    ensures s.Valid() && |answers| == |events|
    ensures forall k | 0 <= k < |events| :: StreamAnswered(events, answers, k)
  {
    hide StreamAnswered, Claims, StreamFinished;
    NoClaims(events);
    var items: seq<Item> := [];
    answers := [];
    for k := 0 to |events|
      invariant s.Valid() && |answers| == k && |items| == Claims(events, answers, k)
      invariant forall j | 0 <= j < k :: StreamAnswered(events, answers, j)
      invariant forall n | 0 <= n < |items| :: s.active == items[n] <==> !StreamFinished(events, answers, k, n)
      invariant forall n | 0 <= n < |items| :: items[n] != s.pending && (fresh(items[n]) || items[n] == old(s.pending))
      invariant forall i, j | 0 <= i < j < |items| :: items[i] != items[j]
      invariant forall n: nat | n >= |items| :: !StreamFinished(events, answers, k, n)
      invariant fresh(s.active) || s.active == null || s.active == old(s.pending)
      invariant fresh(s.pending) || s.pending == null || s.pending == old(s.pending)
    {
      var ok := true;
      match events[k] {
        case ArmStream(operation, seconds) =>
          ok := s.Arm(operation, seconds);
        case ClaimStream =>
          var item := s.Claim();
          ok := item != null;
          items := if item != null then items + [item] else items;
        case FlushStream(n) =>
          ok := false;
          if n < |items| {
            ok := s.FirstFlushed(items[n]);
          }
        case ReleaseStream(operation) =>
          ok := s.Release(operation);
        case FinishStream(n, succeeded) =>
          ok := false;
          if n < |items| {
            ok := s.Finish(items[n], succeeded);
          }
      }
      StreamStep(events, answers, ok, answers + [ok], k + 1);
      answers := answers + [ok];
    }
  }

  lemma NoClaims(events: seq<StreamEvent>)
    ensures Claims(events, [], 0) == 0 && forall n :: !StreamFinished(events, [], 0, n)
  {
  }

  // ----- non-stream requests

  datatype Counts = Counts(started: nat, completed: nat, failed: nat)

  /** One HTTP request: whether it has finished, and the item that it took when it began. */
  class Call {
    const kind: Kind
    const sequence: nat
    const scheduled: Item?
    var finished: bool

    constructor (kind: Kind, sequence: nat, scheduled: Item?)
      ensures this.kind == kind && this.sequence == sequence && this.scheduled == scheduled && !finished
    {
      this.kind, this.sequence, this.scheduled, finished := kind, sequence, scheduled, false;
    }
  }

  /** str.isspace for the characters that str.strip removes. */
  predicate IsSpace(c: char) {
    || '\t' <= c <= '\r' || '\U{1C}' <= c <= ' '
       || c in {'\U{85}', '\U{A0}', '\U{1680}', '\U{202F}', '\U{205F}', '\U{3000}'}
    || '\U{2000}' <= c <= '\U{200A}' || '\U{2028}' <= c <= '\U{2029}'
  }

  predicate TagOk(tag: string) {
    && 1 <= |tag| <= 120 && !IsSpace(tag[0]) && !IsSpace(tag[|tag| - 1])
    && '\n' !in tag && '\r' !in tag
  }

  function InFlight(open: set<Call>, kind: Kind): nat {
    |set c: Call | c in open && c.kind == kind|
  }

  /** The characters that strip() removes. */
  const BLANKS: string := "\t\n\U{0B}\U{0C}\r\U{1C}\U{1D}\U{1E}\U{1F} \U{85}\U{A0}\U{1680}" +
    "\U{2000}\U{2001}\U{2002}\U{2003}\U{2004}\U{2005}\U{2006}\U{2007}\U{2008}\U{2009}\U{200A}" +
    "\U{2028}\U{2029}\U{202F}\U{205F}\U{3000}"

  lemma BlankExactly(c: char)
    ensures IsSpace(c) <==> c in BLANKS
  {
  }

  /** A tag that an application can have: one to 120 characters in one line, with nothing around it to strip. */
  predicate OneLine(tag: string) {
    && 1 <= |tag| <= 120 && tag[0] !in BLANKS && tag[|tag| - 1] !in BLANKS
    && forall i | 0 <= i < |tag| :: tag[i] != '\n' && tag[i] != '\r'
  }

  lemma TagExactly(tag: string)
    ensures TagOk(tag) <==> OneLine(tag)
  {
    if tag != "" {
      BlankExactly(tag[0]);
      BlankExactly(tag[|tag| - 1]);
    }
    hide IsSpace;
  }

  lemma InFlightWith(open: set<Call>, call: Call, kind: Kind)
    requires call !in open
    ensures InFlight(open + {call}, kind) == InFlight(open, kind) + if call.kind == kind then 1 else 0
  {
    var before, after := set c: Call | c in open && c.kind == kind, set c: Call | c in open + {call} && c.kind == kind;
    if call.kind == kind {
      assert after == before + {call};
    } else {
      assert after == before;
    }
  }

  lemma InFlightWithout(open: set<Call>, call: Call, kind: Kind)
    requires call in open
    ensures InFlight(open, kind) == InFlight(open - {call}, kind) + if call.kind == kind then 1 else 0
  {
    InFlightWith(open - {call}, call, kind);
    assert open - {call} + {call} == open;
  }

  lemma InFlightAtMost(open: set<Call>, kind: Kind)
    ensures InFlight(open, kind) <= |open|
  {
    var part := set c: Call | c in open && c.kind == kind;
    assert open == part + (open - part);
  }

  predicate Complete(calls: map<Kind, Counts>) {
    forall kind: Kind :: kind in calls
  }

  function Total(calls: map<Kind, Counts>): nat
    requires Complete(calls)
  {
    calls[Summary].started + calls[Question].started + calls[AutoTag].started + calls[Other].started
  }

  /** Every started request has completed, failed or is in flight, and the sequence number counts them all. */
  predicate CountsOk(calls: map<Kind, Counts>, open: set<Call>, sequence: nat) {
    && Complete(calls) && sequence == Total(calls)
    && forall kind: Kind ::
         calls[kind].started == calls[kind].completed + calls[kind].failed + InFlight(open, kind)
  }

  function Started(calls: map<Kind, Counts>, kind: Kind): map<Kind, Counts>
    requires Complete(calls)
  {
    calls[kind := calls[kind].(started := calls[kind].started + 1)]
  }

  function Ended(calls: map<Kind, Counts>, kind: Kind, succeeded: bool): map<Kind, Counts>
    requires Complete(calls)
  {
    calls[kind := if succeeded then calls[kind].(completed := calls[kind].completed + 1)
                  else calls[kind].(failed := calls[kind].failed + 1)]
  }

  lemma EndedExactly(calls: map<Kind, Counts>, kind: Kind, succeeded: bool)
    requires Complete(calls)
    ensures var after := Ended(calls, kind, succeeded);
            && Complete(after) && after[kind].started == calls[kind].started
            && after[kind].completed == calls[kind].completed + (if succeeded then 1 else 0)
            && after[kind].failed == calls[kind].failed + (if succeeded then 0 else 1)
            && forall other: Kind | other != kind :: after[other] == calls[other]
  {
  }

  lemma CountsBegin(calls: map<Kind, Counts>, open: set<Call>, sequence: nat, call: Call)
    requires CountsOk(calls, open, sequence) && call !in open
    ensures CountsOk(Started(calls, call.kind), open + {call}, sequence + 1) && Complete(Started(calls, call.kind))
  {
    forall kind: Kind
      ensures InFlight(open + {call}, kind) == InFlight(open, kind) + if call.kind == kind then 1 else 0
    {
      InFlightWith(open, call, kind);
    }
    hide InFlight;
  }

  lemma CountsFinish(calls: map<Kind, Counts>, open: set<Call>, sequence: nat, call: Call, succeeded: bool)
    requires CountsOk(calls, open, sequence) && call in open
    ensures CountsOk(Ended(calls, call.kind, succeeded), open - {call}, sequence)
    ensures Complete(Ended(calls, call.kind, succeeded))
  {
    forall kind: Kind
      ensures InFlight(open, kind) == InFlight(open - {call}, kind) + if call.kind == kind then 1 else 0
    {
      InFlightWithout(open, call, kind);
    }
    hide InFlight;
  }

  /** What the accounting says, number by number. */
  lemma CountsExactly(calls: map<Kind, Counts>, open: set<Call>, sequence: nat)
    requires CountsOk(calls, open, sequence)
    ensures sequence == calls[Summary].started + calls[Question].started + calls[AutoTag].started + calls[Other].started
    ensures forall kind: Kind :: calls[kind].started - calls[kind].completed - calls[kind].failed
                                 == |set c: Call | c in open && c.kind == kind|
  {
    hide InFlight;
    forall kind: Kind ensures InFlight(open, kind) == |set c: Call | c in open && c.kind == kind| {
      InFlightIs(open, kind);
    }
  }

  lemma InFlightIs(open: set<Call>, kind: Kind)
    ensures InFlight(open, kind) == |set c: Call | c in open && c.kind == kind|
  {
  }

  lemma NothingInFlight(open: set<Call>)
    requires open == {}
    ensures CountsOk(NO_CALLS, open, 0)
  {
    forall kind: Kind ensures kind in NO_CALLS && NO_CALLS[kind] == Counts(0, 0, 0) && InFlight(open, kind) == 0 {
      InFlightAtMost(open, kind);
      match kind
      case Summary =>
      case Question =>
      case AutoTag =>
      case Other =>
    }
  }

  /** The item of a call that has not finished is the active one, and the active item belongs to one such call. */
  predicate SlotsOk(open: set<Call>, active: Item?) {
    && (forall c | c in open && c.scheduled != null :: c.scheduled == active)
    && (active != null ==> exists c :: c in open && c.scheduled == active)
    && (forall c, d | c in open && d in open && c.scheduled != null && c.scheduled == d.scheduled :: c == d)
  }

  lemma SlotsBegin(open: set<Call>, active: Item?, call: Call, active': Item?)
    requires SlotsOk(open, active) && call !in open
    requires if call.scheduled == null then active' == active else active == null && active' == call.scheduled
    ensures SlotsOk(open + {call}, active')
  {
    if active' != null {
      var c :| c in open + {call} && c.scheduled == active';
    }
  }

  lemma SlotsFinish(open: set<Call>, active: Item?, call: Call)
    requires SlotsOk(open, active) && call in open
    ensures SlotsOk(open - {call}, if call.scheduled == null then active else null)
    ensures call.scheduled != null ==> call.scheduled == active
  {
    if call.scheduled == null && active != null {
      var c :| c in open && c.scheduled == active;
      assert c in open - {call};
    }
  }

  const NO_CALLS: map<Kind, Counts> :=
    map[Summary := Counts(0, 0, 0), Question := Counts(0, 0, 0), AutoTag := Counts(0, 0, 0), Other := Counts(0, 0, 0)]

  class PostprocessSchedule {
    const maximum: nat
    var pending: Item?
    var active: Item?
    var last: Item?
    var expectedTag: Option<string>
    var sequence: nat
    var calls: map<Kind, Counts>
    /** Every call that has begun, and those of them that have not finished. */
    ghost var begun: set<Call>
    ghost var open: set<Call>

    constructor (maximum: nat)
      requires maximum <= 60
      ensures Valid() && this.maximum == maximum && begun == {} && expectedTag.None? && active == pending == null
    {
      this.maximum, pending, active, last, expectedTag, sequence := maximum, null, null, null, None, 0;
      calls := NO_CALLS;
      begun, open := {}, {};
      new;
      NothingInFlight(open);
    }

    /** Never both armed and waiting, and every count and every item accounted for. */
    ghost predicate Valid()
      reads this, begun, pending, active
    {
      && (pending == null || active == null)
      && (pending != null ==> pending.stage == Armed && (pending.kind == Summary || pending.kind == Question)
                              && DelayOk(pending.delay, maximum))
      && (active != null ==> active.stage == Waiting)
      && open <= begun && (forall c | c in begun :: c in open <==> !c.finished)
      && Complete(calls) && CountsOk(calls, open, sequence) && SlotsOk(open, active)
      && (pending != null || active != null ==> expectedTag.Some?)
    }

    /** Arms a delay for the next request of a kind. The expected tag never changes once it is set. */
    method Arm(operation: string, kind: Kind, seconds: real, tag: string) returns (ok: bool)
      requires Valid()
      modifies this`pending, this`expectedTag
      ensures Valid()
      ensures ok <==> && Uuid(operation) && (kind == Summary || kind == Question)
                      && 0.0 < seconds <= maximum as real && TagOk(tag)
                      && old(active) == null && old(pending) == null
                      && (old(expectedTag).Some? ==> old(expectedTag).value == tag)
      ensures ok ==> expectedTag == Some(tag) && pending != null && fresh(pending) && pending.kind == kind
                     && pending.operation == operation && pending.delay == seconds
      ensures !ok ==> pending == old(pending) && expectedTag == old(expectedTag)
    {
      if !Uuid(operation) || !(kind == Summary || kind == Question) || !DelayOk(seconds, maximum) || !TagOk(tag) {
        return false;
      }
      if active != null || pending != null {
        return false;
      }
      if expectedTag.Some? && expectedTag.value != tag {
        return false;
      }
      expectedTag := Some(tag);
      pending := new Item(operation, kind, seconds);
      ok := true;
    }

    method Configure(tag: string) returns (ok: bool)
      requires Valid()
      modifies this`expectedTag
      ensures Valid()
      ensures ok <==> maximum > 0 && TagOk(tag) && old(active) == null && old(pending) == null
                      && (old(expectedTag).Some? ==> old(expectedTag).value == tag)
      ensures expectedTag == if ok then Some(tag) else old(expectedTag)
    {
      if maximum == 0 || !TagOk(tag) {
        return false;
      }
      if active != null || pending != null || (expectedTag.Some? && expectedTag.value != tag) {
        return false;
      }
      expectedTag := Some(tag);
      ok := true;
    }

    /** A request begins; if one of its kind is awaited, it takes the item and waits. */
    method Begin(kind: Kind) returns (call: Call?)
      requires Valid()
      modifies this`sequence, this`calls, this`active, this`pending, this`begun, this`open, pending
      ensures Valid() && expectedTag == old(expectedTag)
      ensures call == null <==> maximum == 0
      ensures call == null ==> sequence == old(sequence) && calls == old(calls) && active == old(active)
                               && begun == old(begun) && open == old(open)
      ensures call != null ==>
                && fresh(call) && call.kind == kind && !call.finished && call.sequence == sequence == old(sequence) + 1
                && begun == old(begun) + {call} && open == old(open) + {call}
                && calls == Started(old(calls), kind)
                && call.scheduled == if old(pending) != null && old(pending).kind == kind then old(pending) else null
      ensures call == null || call.scheduled == null ==> active == old(active) && pending == old(pending)
      ensures call != null && call.scheduled != null ==> active == call.scheduled && pending == null
    {
      hide CountsOk, SlotsOk, Complete, Started, DelayOk;
      if maximum == 0 {
        return null;
      }
      sequence, calls := sequence + 1, Started(calls, kind);
      var taken: Item? := null;
      if pending != null && pending.kind == kind {
        active, pending := pending, null;
        active.stage, active.claimed := Waiting, sequence;
        taken := active;
      }
      call := new Call(kind, sequence, taken);
      CountsBegin(old(calls), open, old(sequence), call);
      SlotsBegin(open, old(active), call, active);
      begun, open := begun + {call}, open + {call};
    }

    method Release(operation: string) returns (ok: bool)
      requires Valid()
      modifies active
      ensures Valid() && (ok <==> active != null && active.operation == operation)
      ensures ok ==> active.released
      ensures active != null ==> active.stage == old(active.stage)
    {
      ok := active != null && active.operation == operation;
      if ok {
        active.released := true;
      }
    }

    /** A call that began can finish once, and then the identity of its item is always right. */
    method Finish(call: Call, succeeded: bool) returns (ok: bool)
      requires Valid() && call in begun
      modifies this`calls, this`active, this`last, this`open, call, active
      ensures Valid() && begun == old(begun) && expectedTag == old(expectedTag)
      ensures ok <==> !old(call.finished)
      ensures call.finished
      ensures ok ==> open == old(open) - {call}
                     && calls == Ended(old(calls), call.kind, succeeded)
                     && active == if call.scheduled != null then null else old(active)
      ensures ok ==> && calls[call.kind].started == old(calls)[call.kind].started
                     && calls[call.kind].completed == old(calls)[call.kind].completed + (if succeeded then 1 else 0)
                     && calls[call.kind].failed == old(calls)[call.kind].failed + (if succeeded then 0 else 1)
                     && forall kind: Kind | kind != call.kind :: calls[kind] == old(calls)[kind]
      ensures ok && call.scheduled != null ==>
                last == call.scheduled && last.stage == if succeeded then Stage.Finished else Disconnected
      ensures !ok ==> calls == old(calls) && active == old(active) && open == old(open)
    {
      hide CountsOk, SlotsOk, Ended, DelayOk;
      if call.finished {
        return false;
      }
      CountsFinish(calls, open, sequence, call, succeeded);
      SlotsFinish(open, active, call);
      EndedExactly(calls, call.kind, succeeded);
      call.finished := true;
      open := open - {call};
      calls := Ended(calls, call.kind, succeeded);
      var item := call.scheduled;
      if item != null {
        if active != item {
          return false;
        }
        item.stage := if succeeded then Stage.Finished else Disconnected;
        last, active := item, null;
      }
      ok := true;
    }
  }

  /** Refuses a maximum that is out of range. */
  method NewPostprocessSchedule(maximum: int) returns (s: PostprocessSchedule?)
    ensures s == null <==> !(0 <= maximum <= 60)
    ensures s != null ==>
              && fresh(s) && s.Valid() && s.maximum == maximum && s.begun == {}
              && s.active == s.pending == null
  {
    s := null;
    if 0 <= maximum <= 60 {
      s := new PostprocessSchedule(maximum);
    }
  }

  /** What may happen to a postprocess schedule. Requests are named by the order in which they began. */
  datatype RequestEvent =
    | ArmRequest(operation: string, kind: Kind, seconds: real, tag: string)
    | ConfigureTag(tag: string)
    | BeginRequest(kind: Kind)
    | ReleaseRequest(operation: string)
    | FinishRequest(n: nat, succeeded: bool)

  /** What an event asks the expected tag to be. */
  function AskedTag(e: RequestEvent): Option<string> {
    match e
    case ArmRequest(_, _, _, tag) => Some(tag)
    case ConfigureTag(tag) => Some(tag)
    case _ => None
  }

  /** `tags` is the expected tag before the first event and after each: it is set by the first accepted event that asks
      for one, never changes again, and every accepted event asks for that one. */
  ghost predicate TagsOk(tags: seq<Option<string>>, answers: seq<bool>, events: seq<RequestEvent>) {
    && |answers| <= |events| && |tags| == |answers| + 1
    && (forall k | 0 <= k < |answers| ::
          tags[k + 1] == if answers[k] && AskedTag(events[k]).Some? then AskedTag(events[k]) else tags[k])
    && (forall j, k | 0 <= j <= k < |tags| && tags[j].Some? :: tags[k] == tags[j])
  }

  lemma TagsStep(tags: seq<Option<string>>, answers: seq<bool>, events: seq<RequestEvent>, ok: bool,
                 tag: Option<string>)
    requires TagsOk(tags, answers, events) && |answers| < |events|
    requires var before, asked := tags[|answers|], AskedTag(events[|answers|]);
             && tag == (if ok && asked.Some? then asked else before)
             && (before.Some? ==> tag == before)
    ensures TagsOk(tags + [tag], answers + [ok], events)
  {
  }

  /** How many of the first `k` events were requests that began. */
  function Begun(events: seq<RequestEvent>, answers: seq<bool>, k: nat): nat
    requires k <= |events| && k <= |answers|
  {
    if k == 0 then 0
    else Begun(events, answers, k - 1) + if events[k - 1].BeginRequest? && answers[k - 1] then 1 else 0
  }

  /** Which of these calls have finished. */
  ghost function Finishes(calls: seq<Call>): set<nat>
    reads calls
  {
    set n: nat | n < |calls| && calls[n].finished
  }

  /** Request `n` has finished before event `k`, or is one of those that had finished before the first. */
  predicate RequestFinished(events: seq<RequestEvent>, answers: seq<bool>, k: nat, gone: set<nat>, n: nat)
    requires k <= |events| && k <= |answers|
  {
    n in gone || exists j | 0 <= j < k :: events[j].FinishRequest? && events[j].n == n && answers[j]
  }

  /** A request begins wherever the control is enabled; one that has begun finishes exactly once. */
  predicate RequestAnswered(events: seq<RequestEvent>, answers: seq<bool>, k: nat, base: nat, gone: set<nat>,
                            enabled: bool)
    requires k < |events| && k < |answers|
  {
    match events[k]
    case BeginRequest(_) => answers[k] <==> enabled
    case FinishRequest(n, _) =>
      answers[k] <==> n < base + Begun(events, answers, k) && !RequestFinished(events, answers, k, gone, n)
    case _ => true
  }

  predicate RequestsAnswered(events: seq<RequestEvent>, answers: seq<bool>, base: nat, gone: set<nat>, enabled: bool)
    requires |answers| <= |events|
  {
    forall k | 0 <= k < |answers| :: RequestAnswered(events, answers, k, base, gone, enabled)
  }

  lemma {:induction false} BegunOfPrefix(events: seq<RequestEvent>, answers: seq<bool>, more: seq<bool>, k: nat)
    requires k <= |events| && k <= |answers| && answers <= more
    ensures Begun(events, more, k) == Begun(events, answers, k)
  {
    if k > 0 {
      BegunOfPrefix(events, answers, more, k - 1);
    }
  }

  lemma RequestStep(events: seq<RequestEvent>, answers: seq<bool>, ok: bool, more: seq<bool>, next: nat, base: nat,
                    gone: set<nat>, enabled: bool)
    requires |answers| < |events| && more == answers + [ok] && next == |more|
    requires RequestsAnswered(events, answers, base, gone, enabled)
    requires var k := |answers|;
             match events[k]
             case BeginRequest(_) => ok <==> enabled
             case FinishRequest(n, _) =>
               ok <==> n < base + Begun(events, answers, k) && !RequestFinished(events, answers, k, gone, n)
             case _ => true
    ensures var e := events[|answers|];
            && RequestsAnswered(events, more, base, gone, enabled)
            && Begun(events, more, next)
               == Begun(events, answers, |answers|) + (if e.BeginRequest? && ok then 1 else 0)
            && forall n :: RequestFinished(events, more, next, gone, n)
                           <==> RequestFinished(events, answers, |answers|, gone, n)
                                || (e.FinishRequest? && e.n == n && ok)
  {
    var k := |answers|;
    BegunOfPrefix(events, answers, more, k);
    assert forall j | 0 <= j < k :: more[j] == answers[j];
    forall j | 0 <= j < next ensures RequestAnswered(events, more, j, base, gone, enabled) {
      BegunOfPrefix(events, answers, more, j);
      assert j < k ==> RequestAnswered(events, answers, j, base, gone, enabled);
    }
    forall n ensures RequestFinished(events, more, next, gone, n)
                <==> RequestFinished(events, answers, k, gone, n)
                     || (events[k].FinishRequest? && events[k].n == n && ok) {
      if RequestFinished(events, answers, k, gone, n) && n !in gone {
        var j :| 0 <= j < k && events[j].FinishRequest? && events[j].n == n && answers[j];
        assert more[j];
      }
    }
  }

  /** One event. `more` are the requests that have begun, in order. */
  method Respond(s: PostprocessSchedule, requests: seq<Call>, e: RequestEvent) returns (ok: bool, more: seq<Call>)
    requires s.Valid() && forall c | c in requests :: c in s.begun
    requires forall i, j | 0 <= i < j < |requests| :: requests[i] != requests[j]
    modifies s, s.pending, s.active, s.begun
    ensures s.Valid() && forall c | c in more :: c in s.begun
    ensures forall i, j | 0 <= i < j < |more| :: more[i] != more[j]
    ensures requests <= more && |more| == |requests| + if e.BeginRequest? && ok then 1 else 0
    ensures e.BeginRequest? ==> (ok <==> s.maximum > 0)
    ensures e.FinishRequest? ==> (ok <==> e.n < |requests| && !old(requests[e.n].finished))
    ensures forall n | 0 <= n < |more| ::
              more[n].finished <==> || (n < |requests| && old(requests[n].finished))
                                    || (e.FinishRequest? && e.n == n && ok)
    ensures s.expectedTag == if ok && AskedTag(e).Some? then AskedTag(e) else old(s.expectedTag)
    ensures old(s.expectedTag).Some? ==> s.expectedTag == old(s.expectedTag)
    ensures forall c | c in s.begun :: fresh(c) || c in old(s.begun)
    ensures s.active == null || fresh(s.active) || s.active == old(s.pending) || s.active == old(s.active)
    ensures s.pending == null || fresh(s.pending) || s.pending == old(s.pending)
  {
    hide Uuid, DelayOk, TagOk, CountsOk, SlotsOk, Complete, InFlight, Started, Ended, PostprocessSchedule.Valid;
    ok, more := true, requests;
    match e {
      case ArmRequest(operation, kind, seconds, tag) =>
        ok := s.Arm(operation, kind, seconds, tag);
      case ConfigureTag(tag) =>
        ok := s.Configure(tag);
      case BeginRequest(kind) =>
        var call := s.Begin(kind);
        ok := call != null;
        more := if call != null then requests + [call] else requests;
      case ReleaseRequest(operation) =>
        ok := s.Release(operation);
      case FinishRequest(n, succeeded) =>
        ok := false;
        if n < |requests| {
          assert requests[n] in requests;
          ok := s.Finish(requests[n], succeeded);
        }
    }
  }

  /** Under every interleaving, a request that has begun finishes once and never again, whatever was still open before;
      the expected tag is what the first accepted event made it, at every later point; and what `Valid` says of slots
      and counts holds at the end. `answers` tells which events were accepted. */
  method InterleaveRequests(s: PostprocessSchedule, earlier: seq<Call>, events: seq<RequestEvent>)
    returns (answers: seq<bool>, ghost tags: seq<Option<string>>)
    requires s.Valid() && forall c | c in earlier :: c in s.begun
    requires forall i, j | 0 <= i < j < |earlier| :: earlier[i] != earlier[j]
    modifies s, s.pending, s.active, s.begun
    ensures s.Valid() && |answers| == |events|
    ensures RequestsAnswered(events, answers, |earlier|, old(Finishes(earlier)), s.maximum > 0)
    ensures TagsOk(tags, answers, events)
    ensures tags[0] == old(s.expectedTag) && tags[|events|] == s.expectedTag
  {
    hide PostprocessSchedule.Valid, TagsOk, RequestAnswered, RequestsAnswered, RequestFinished, Begun;
    ghost var gone := Finishes(earlier);
    NothingBegun(events, |earlier|, gone, s.maximum > 0);
    NoTagsYet(s.expectedTag, events);
    answers, tags := [], [s.expectedTag];
    var requests := earlier;
    for k := 0 to |events|
      invariant s.Valid() && |answers| == k && |tags| == k + 1
      invariant |requests| == |earlier| + Begun(events, answers, k)
      invariant RequestsAnswered(events, answers, |earlier|, gone, s.maximum > 0)
      invariant forall c | c in requests :: c in s.begun
      invariant forall n | 0 <= n < |requests| :: requests[n].finished <==> RequestFinished(events, answers, k, gone, n)
      invariant forall n: nat | n >= |requests| :: !RequestFinished(events, answers, k, gone, n)
      invariant forall i, j | 0 <= i < j < |requests| :: requests[i] != requests[j]
      invariant forall c | c in s.begun :: fresh(c) || c in old(s.begun)
      invariant s.active == null || fresh(s.active) || s.active == old(s.pending) || s.active == old(s.active)
      invariant s.pending == null || fresh(s.pending) || s.pending == old(s.pending)
      invariant TagsOk(tags, answers, events) && tags[0] == old(s.expectedTag) && tags[k] == s.expectedTag
    {
      var ok, more := Respond(s, requests, events[k]);
      RequestStep(events, answers, ok, answers + [ok], k + 1, |earlier|, gone, s.maximum > 0);
      TagsStep(tags, answers, events, ok, s.expectedTag);
      requests, answers, tags := more, answers + [ok], tags + [s.expectedTag];
    }
  }

  lemma NothingBegun(events: seq<RequestEvent>, base: nat, gone: set<nat>, enabled: bool)
    ensures RequestsAnswered(events, [], base, gone, enabled) && Begun(events, [], 0) == 0
    ensures forall n :: RequestFinished(events, [], 0, gone, n) <==> n in gone
  {
  }

  lemma NoTagsYet(tag: Option<string>, events: seq<RequestEvent>)
    ensures TagsOk([tag], [], events)
  {
  }
}
