/**
 * The list of audio requests shared by streams and prompts (app_audio.cpp), and the player that runs
 * because of it (app_bt_stream.cpp). Streams are put in front, prompts at the back, and the first prompt of
 * the list is meant to be the one playing. The statuses of the list come from a pool of 20 entries.
 */
module AudioList {
  const MAX_AUDIO_BUF_LIST := 20
  const POOL := 20

  /**
   The player identities that the list tells apart. Input stands for the voice input streams, and Other
   for the output players that are listed but do not count as streams.
   */
  datatype Id = HfpPcm | HfpCvsd | HfpVendor | A2dpSbc | A2dpAac | A2dpVendor | PlayBack | Input(n: nat) | Other(n: nat)

  datatype Status = Status(id: Id, incomingCall: bool, audId: nat, freq: nat)

  datatype Position = Head | Tail

  datatype Option<T> = None | Some(value: T)

  predicate Prompt(s: Status) {
    s.id.PlayBack?
  }

  predicate Stream(s: Status) {
    !s.id.PlayBack? && !s.id.Other?
  }

  predicate HasStream(l: seq<Status>) {
    exists s <- l :: Stream(s)
  }

  predicate HasPrompt(l: seq<Status>) {
    exists s <- l :: Prompt(s)
  }

  predicate HasIncomingCall(l: seq<Status>) {
    exists s <- l :: Prompt(s) && s.incomingCall
  }

  /** Nothing but prompts after a prompt. */
  ghost predicate Sorted(l: seq<Status>) {
    forall i, j :: 0 <= i < j < |l| && Prompt(l[i]) ==> Prompt(l[j])
  }

  function Prompts(l: seq<Status>): (r: seq<Status>)
    ensures forall s <- r :: Prompt(s)
  {
    if l == [] then []
    else if Prompt(l[0]) then [l[0]] + Prompts(l[1..])
    else Prompts(l[1..])
  }

  function IncomingCalls(l: seq<Status>): nat {
    if l == [] then 0 else IncomingCalls(l[1..]) + (if Prompt(l[0]) && l[0].incomingCall then 1 else 0)
  }

  function FirstPrompt(l: seq<Status>): (i: nat)
    requires HasPrompt(l)
    ensures i < |l| && Prompt(l[i]) && forall j :: 0 <= j < i ==> !Prompt(l[j])
  {
    if Prompt(l[0]) then 0
    else
      assert forall s <- l :: s == l[0] || s in l[1..];
      FirstPrompt(l[1..]) + 1
  }

  // ---------------------------------------------------------------- the two list operations

  /** A redundant incoming call, or any other prompt when three entries are waiting already. */
  predicate Filtered(l: seq<Status>, s: Status) {
    Prompt(s) && (if s.incomingCall then HasIncomingCall(l) else |l| > 2)
  }

  datatype Appending = Appending(list: seq<Status>, open: bool, accepted: bool, cleared: bool)

  function Append(l: seq<Status>, s: Status): Appending {
    if Filtered(l, s) then Appending(l, false, false, false)
    else if !Prompt(s) then
      if |l| >= POOL then Appending(l, false, false, false) else Appending([s] + l, true, true, false)
    else if HasPrompt(l) && |l| >= MAX_AUDIO_BUF_LIST then
      if HasStream(l) then
        // the copy of the front entry would come from the exhausted pool
        Appending(l, false, false, false)
      else Appending([s], true, true, true)
    else if |l| >= POOL then Appending(l, false, false, false)
    else Appending(l + [s], !HasPrompt(l), true, false)
  }

  datatype Removal = Removal(list: seq<Status>, next: Option<Status>)

  function Without(l: seq<Status>, i: nat): (r: seq<Status>)
    requires i < |l|
    ensures |r| == |l| - 1
    ensures forall k :: 0 <= k < |r| ==> r[k] == if k < i then l[k] else l[k + 1]
  {
    l[..i] + l[i + 1..]
  }

  function Remove(l: seq<Status>, id: Id, pos: Position, popNext: bool): Removal {
    if id.PlayBack? then
      if !HasPrompt(l) then Removal(l, None)
      else
        var i := FirstPrompt(l);
        Removal(Without(l, i),
                if popNext then Some(l[i])
                else if i + 1 < |l| then Some(l[i + 1])
                else if HasStream(l) then Some(l[0])
                else None)
    else if HasStream(l) then Removal(Without(l, if pos.Head? then 0 else |l| - 1), None)
    else Removal(l, None)
  }

  class AudioList {
    var list: seq<Status>
    /** The player that is running, and whether input and output players may run side by side. */
    var running: Option<Id>
    const isolated: bool

    constructor (isolated: bool)
      ensures list == [] && running == None && this.isolated == isolated
    {
      list := [];
      running := None;
      this.isolated := isolated;
    }

    method FilterExist(s: Status) returns (found: bool)
      ensures found == Filtered(list, s)
    {
      if Prompt(s) {
        if s.incomingCall {
          var node := 0;
          while node < |list|
            invariant node <= |list|
            invariant forall k :: 0 <= k < node ==> !(Prompt(list[k]) && list[k].incomingCall)
          {
            if Prompt(list[node]) && list[node].incomingCall { return true; }
            node := node + 1;
          }
        } else {
          var cnt := 0;
          var node := 0;
          while node < |list|
            invariant node <= |list| && cnt == node <= 2
          {
            if cnt > 1 { return true; }
            cnt := cnt + 1;
            node := node + 1;
          }
        }
      }
      return false;
    }

    method PlaybackExist() returns (found: bool)
      ensures found == HasPrompt(list)
    {
      var node := 0;
      while node < |list|
        invariant node <= |list| && forall k :: 0 <= k < node ==> !Prompt(list[k])
      {
        if Prompt(list[node]) { return true; }
        node := node + 1;
      }
      return false;
    }

    method StreamExist() returns (found: bool)
      ensures found == HasStream(list)
    {
      var node := 0;
      while node < |list|
        invariant node <= |list| && forall k :: 0 <= k < node ==> !Stream(list[k])
      {
        if Stream(list[node]) { return true; }
        node := node + 1;
      }
      return false;
    }

    /** app_audio_list_append: true when the caller is to open the stream now. */
    method AppendStatus(s: Status) returns (ret: bool)
      modifies this`list
      ensures list == Append(old(list), s).list && ret == Append(old(list), s).open
    {
      var atHead := false;
      ret := true;
      if Prompt(s) {
        var redundant := FilterExist(s);
        if redundant { return false; }
        var playing := PlaybackExist();
        if playing {
          if |list| >= MAX_AUDIO_BUF_LIST {
            var stream := StreamExist();
            if stream {
              // the front entry is to be copied and kept, but a full list has emptied the pool
              if |list| >= POOL { return false; }
              assert false;
            }
            list := [];
          } else {
            ret := false;
          }
        }
      } else {
        atHead := true;
      }
      if |list| >= POOL { return false; }
      list := if atHead then [s] + list else list + [s];
    }

    /** app_audio_list_rmv_callback: the status to open next, if any. */
    method RemoveStatus(id: Id, pos: Position, popNext: bool) returns (next: Option<Status>)
      requires Sorted(list)
      modifies this`list
      ensures Sorted(list)
      ensures Remove(old(list), id, pos, popNext) == Removal(list, next)
    {
      next := None;
      if |list| == 0 { return; }
      var toRemove: Option<nat> := None;
      if id.PlayBack? {
        var node := 0;
        while node < |list|
          invariant node <= |list| && list == old(list)
          invariant forall k :: 0 <= k < node ==> !Prompt(list[k])
          invariant toRemove.None? && next.None?
        {
          if Prompt(list[node]) {
            toRemove := Some(node);
            if popNext {
              next := Some(list[node]);
              break;
            }
            if node + 1 < |list| {
              next := Some(list[node + 1]);
              assert next.value.id.PlayBack?;   // the source asserts this
            } else {
              var stream := StreamExist();
              if stream {
                next := Some(list[0]);
                assert !next.value.id.PlayBack?;   // the source asserts this
              }
            }
            break;
          }
          node := node + 1;
        }
        assert toRemove.Some? ==> toRemove.value == FirstPrompt(list);
      } else {
        var stream := StreamExist();
        if stream { toRemove := Some(if pos.Head? then 0 else |list| - 1); }
      }
      if toRemove.Some? { list := Without(list, toRemove.value); }
    }

    /** app_bt_stream_open: a running player is stopped first, and its entry removed from the tail. */
    method StartPlayer(id: Id, fx: Effects) returns (ok: bool)
      requires Sorted(list)
      modifies this
      ensures Sorted(list)
      ensures Opening(list, running) == Started(old(list), old(running), isolated, id, fx)
    {
      if running.Some? {
        if isolated {
          if running.value == id { return false; }
          if Output(id) {
            if !fx.stops { return false; }
            var _ := RemoveStatus(running.value, Tail, false);
            running := None;
          }
        } else {
          if !fx.stops { return false; }
          var _ := RemoveStatus(running.value, Tail, false);
          running := None;
        }
      }
      if fx.starts && (!isolated || Output(id)) { running := Some(id); }
      ok := fx.starts;
    }

    /** What each request does to the list and the players, and what was handed to a player to start. */
    method Process(e: Event) returns (begun: Option<Status>)
      requires Sorted(list)
      modifies this
      ensures var after := Step(State(isolated, old(list), old(running), [], [], [], 0, 0), e);
        list == after.list && running == after.running && after.played == if begun.Some? then [begun.value] else []
    {
      hide Prompts, FirstPrompt, Skips, Sorted, Waiting;
      begun := None;
      match e {
        case Open(s, fx) =>
          var now := AppendStatus(s);
          AppendSorted(old(list), s);
          if now {
            begun := Some(s);
            var _ := StartPlayer(s.id, fx);
          }
        case Close(id, fx) =>
          if running == Some(id) && fx.closes { running := None; }
          begun := RemoveStatus(id, Head, false);
          if begun.Some? { var _ := StartPlayer(begun.value.id, fx); }
        case TakeOver =>
          var _ := RemoveStatus(PlayBack, Head, true);
        case CloseAll =>
          running := None;
          list := [];
      }
    }
  }

  lemma AppendSorted(l: seq<Status>, s: Status)
    requires Sorted(l)
    ensures Sorted(Append(l, s).list)
  {}

  // ---------------------------------------------------------------- runs

  /** What the players do: whether closing, stopping a player that is in the way, and starting succeed. */
  datatype Effects = Effects(closes: bool, stops: bool, starts: bool)

  predicate Output(id: Id) {
    !id.Input?
  }

  /** A player that is in the way makes the start fail. */
  predicate Refused(running: Option<Id>, isolated: bool, id: Id, fx: Effects) {
    running.Some? && (if isolated then running.value == id || (Output(id) && !fx.stops) else !fx.stops)
  }

  /** A player that is in the way is stopped. */
  predicate Replaces(running: Option<Id>, isolated: bool, id: Id, fx: Effects) {
    running.Some? && !Refused(running, isolated, id, fx) && (!isolated || Output(id))
  }

  datatype Opening = Opening(list: seq<Status>, running: Option<Id>)

  function Started(l: seq<Status>, running: Option<Id>, isolated: bool, id: Id, fx: Effects): Opening {
    if Refused(running, isolated, id, fx) then Opening(l, running)
    else
      var replaced := Replaces(running, isolated, id, fx);
      Opening(if replaced then Remove(l, running.value, Tail, false).list else l,
              if fx.starts && (!isolated || Output(id)) then Some(id) else if replaced then None else running)
  }

  /**
   The OPEN, CLOSE and CLOSEALL requests, and the removal of a prompt that another player takes over.
   */
  datatype Event = Open(s: Status, fx: Effects) | Close(id: Id, fx: Effects) | TakeOver | CloseAll

  /**
   The list and the running player together with the history of the run: the prompts accepted, everything
   handed to a player to start, the prompts taken off the list by their own CLOSE, the number of accepted prompts
   that can no longer be started, and the number of prompts taken off the list by anything else.
   */
  datatype State = State(isolated: bool, list: seq<Status>, running: Option<Id>, accepted: seq<Status>,
                         played: seq<Status>, ended: seq<Status>, skipped: nat, taken: nat)

  function Initial(isolated: bool): State {
    State(isolated, [], None, [], [], [], 0, 0)
  }

  /** The prompts of the list that wait behind the one that is playing. */
  function Waiting(l: seq<Status>): seq<Status> {
    if Prompts(l) == [] then [] else Prompts(l)[1..]
  }

  /** Removing the entry of a player takes a prompt off the list. */
  predicate TakesPrompt(l: seq<Status>, id: Id) {
    if id.PlayBack? then HasPrompt(l) else HasStream(l) && Prompt(l[|l| - 1])
  }

  /** A prompt that had not been started is passed over when a prompt is taken off a list of several. */
  function Skips(l: seq<Status>, id: Id): nat {
    if TakesPrompt(l, id) && |Prompts(l)| >= 2 then 1 else 0
  }

  function Appended(st: State, s: Status): State {
    var a := Append(st.list, s);
    st.(list := a.list,
        accepted := if a.accepted && Prompt(s) then st.accepted + [s] else st.accepted,
        played := if a.open then st.played + [s] else st.played,
        skipped := if a.cleared then st.skipped + |Waiting(st.list)| else st.skipped,
        taken := if a.cleared then st.taken + |Prompts(st.list)| else st.taken)
  }

  function Closed(st: State, id: Id): State {
    var r := Remove(st.list, id, Head, false);
    st.(list := r.list,
        played := if r.next.Some? then st.played + [r.next.value] else st.played,
        ended := if id.PlayBack? && HasPrompt(st.list) then st.ended + [st.list[FirstPrompt(st.list)]] else st.ended)
  }

  /** Starting a player, which may displace the one that runs. */
  function Displaced(st: State, id: Id, fx: Effects): State {
    var o := Started(st.list, st.running, st.isolated, id, fx);
    if Replaces(st.running, st.isolated, id, fx) then
      st.(list := o.list, running := o.running,
          skipped := st.skipped + Skips(st.list, st.running.value),
          taken := st.taken + if TakesPrompt(st.list, st.running.value) then 1 else 0)
    else st.(running := o.running)
  }

  function Stopped(st: State, id: Id, fx: Effects): State {
    if st.running == Some(id) && fx.closes then st.(running := None) else st
  }

  function TakenOver(st: State): State {
    st.(list := Remove(st.list, PlayBack, Head, true).list,
        skipped := st.skipped + Skips(st.list, PlayBack),
        taken := st.taken + if HasPrompt(st.list) then 1 else 0)
  }

  function Cleared(st: State): State {
    st.(list := [], running := None, skipped := st.skipped + |Waiting(st.list)|, taken := st.taken + |Prompts(st.list)|)
  }

  function Step(st: State, e: Event): State {
    match e
    case Open(s, fx) =>
      if Append(st.list, s).open then Displaced(Appended(st, s), s.id, fx) else Appended(st, s)
    case Close(id, fx) =>
      var next := Remove(st.list, id, Head, false).next;
      var done := Closed(Stopped(st, id, fx), id);
      if next.Some? then Displaced(done, next.value.id, fx) else done
    case TakeOver => TakenOver(st)
    case CloseAll => Cleared(st)
  }

  function Run(st: State, events: seq<Event>): State
    decreases |events|
  {
    if events == [] then st else Step(Run(st, events[..|events| - 1]), events[|events| - 1])
  }

  // ---------------------------------------------------------------- prompts of a list

  lemma {:induction false} PromptsConcat(a: seq<Status>, b: seq<Status>)
    ensures Prompts(a + b) == Prompts(a) + Prompts(b)
    ensures IncomingCalls(a + b) == IncomingCalls(a) + IncomingCalls(b)
  {
    if a == [] {
      assert a + b == b;
    } else {
      assert (a + b)[0] == a[0] && (a + b)[1..] == a[1..] + b;
      PromptsConcat(a[1..], b);
    }
  }

  lemma PromptsOne(s: Status)
    ensures Prompts([s]) == if Prompt(s) then [s] else []
    ensures IncomingCalls([s]) == if Prompt(s) && s.incomingCall then 1 else 0
  {
    assert [s][1..] == [];
  }

  lemma {:induction false} PromptsBound(l: seq<Status>)
    ensures IncomingCalls(l) <= |Prompts(l)| <= |l|
    ensures HasPrompt(l) <==> Prompts(l) != []
    ensures HasIncomingCall(l) <==> IncomingCalls(l) > 0
  {
    if l != [] {
      PromptsBound(l[1..]);
      assert forall s <- l :: s == l[0] || s in l[1..];
    }
  }

  lemma {:induction false} NoPrompts(l: seq<Status>)
    requires forall s <- l :: !Prompt(s)
    ensures Prompts(l) == []
  {
    if l != [] { NoPrompts(l[1..]); }
  }

  /** Removing the first prompt of the list drops the first of its prompts. */
  lemma FirstRemoved(l: seq<Status>)
    requires HasPrompt(l)
    ensures var i := FirstPrompt(l);
      && Prompts(l) == [l[i]] + Prompts(Without(l, i))
      && IncomingCalls(l) == IncomingCalls(Without(l, i)) + (if l[i].incomingCall then 1 else 0)
  {
    hide Prompts, IncomingCalls, FirstPrompt;
    var i := FirstPrompt(l);
    var rest := Prompts(l[i + 1..]);
    assert l == l[..i] + ([l[i]] + l[i + 1..]);
    assert Without(l, i) == l[..i] + l[i + 1..];
    PromptsConcat(l[..i], [l[i]] + l[i + 1..]);
    PromptsConcat([l[i]], l[i + 1..]);
    PromptsConcat(l[..i], l[i + 1..]);
    PromptsOne(l[i]);
    NoPrompts(l[..i]);
    assert Prompts(Without(l, i)) == rest;
    assert Prompts(l) == [l[i]] + rest;
  }

  /** A sorted list with a stream in it starts with something other than a prompt. */
  lemma FrontIsNoPrompt(l: seq<Status>)
    requires Sorted(l) && HasStream(l)
    ensures !Prompt(l[0])
  {
    var s :| s in l && Stream(s);
    var j :| 0 <= j < |l| && l[j] == s;
  }

  lemma HeadRemoved(l: seq<Status>)
    requires l != [] && !Prompt(l[0])
    ensures Prompts(Without(l, 0)) == Prompts(l) && IncomingCalls(Without(l, 0)) == IncomingCalls(l)
  {
    assert Without(l, 0) == l[1..];
  }

  lemma LastRemoved(l: seq<Status>)
    requires l != []
    ensures var n := |l| - 1;
      && Prompts(l) == Prompts(Without(l, n)) + (if Prompt(l[n]) then [l[n]] else [])
      && IncomingCalls(l) == IncomingCalls(Without(l, n)) + (if Prompt(l[n]) && l[n].incomingCall then 1 else 0)
  {
    var n := |l| - 1;
    assert Without(l, n) == l[..n] && l == l[..n] + [l[n]];
    PromptsConcat(l[..n], [l[n]]);
    PromptsOne(l[n]);
  }

  // ---------------------------------------------------------------- the shape of the list

  /** Streams before prompts, within the pool, at most three ordinary prompts and one incoming call. */
  ghost predicate Inv(l: seq<Status>) {
    && Sorted(l)
    && |l| <= POOL
    && IncomingCalls(l) <= 1
    && |Prompts(l)| - IncomingCalls(l) <= 3
  }

  lemma InvBound(l: seq<Status>)
    requires Inv(l)
    ensures |Prompts(l)| <= 4
  {}

  lemma BackKeepsInv(l: seq<Status>, s: Status)
    requires Inv(l) && Prompt(s) && !Filtered(l, s) && |l| < POOL
    ensures Inv(l + [s])
  {
    PromptsBound(l);
    PromptsOne(s);
    PromptsConcat(l, [s]);
    hide Prompts, IncomingCalls, HasPrompt, HasIncomingCall, HasStream;
  }

  lemma FrontKeepsInv(l: seq<Status>, s: Status)
    requires Inv(l) && !Prompt(s) && |l| < POOL
    ensures Inv([s] + l)
  {
    PromptsOne(s);
    PromptsConcat([s], l);
    hide Prompts, IncomingCalls, HasPrompt, HasIncomingCall, HasStream;
  }

  lemma OneIsInv(s: Status)
    ensures Inv([s])
  {
    PromptsOne(s);
  }

  lemma AppendKeepsInv(l: seq<Status>, s: Status)
    requires Inv(l)
    ensures Inv(Append(l, s).list)
  {
    hide Inv, Filtered, HasPrompt, HasStream;
    if Filtered(l, s) {
    } else if !Prompt(s) {
      if |l| < POOL { FrontKeepsInv(l, s); }
    } else if |l| < POOL {
      BackKeepsInv(l, s);
    } else {
      OneIsInv(s);
    }
  }

  lemma RemoveKeepsInv(l: seq<Status>, id: Id, pos: Position, popNext: bool)
    requires Inv(l)
    ensures Inv(Remove(l, id, pos, popNext).list)
  {
    hide Prompts, IncomingCalls, FirstPrompt;
    PromptsBound(l);
    if id.PlayBack? {
      if HasPrompt(l) { FirstRemoved(l); }
    } else if HasStream(l) {
      if pos.Head? { FrontIsNoPrompt(l); HeadRemoved(l); } else { LastRemoved(l); }
    }
  }

  lemma DisplacedKeepsInv(st: State, id: Id, fx: Effects)
    requires Inv(st.list)
    ensures Inv(Displaced(st, id, fx).list)
  {
    hide Inv, Remove, Skips, TakesPrompt;
    if Replaces(st.running, st.isolated, id, fx) { RemoveKeepsInv(st.list, st.running.value, Tail, false); }
  }

  lemma StepKeepsInv(st: State, e: Event)
    requires Inv(st.list)
    ensures Inv(Step(st, e).list)
  {
    hide Remove, Skips, Append, Displaced;
    match e
    case Open(s, fx) =>
      AppendKeepsInv(st.list, s);
      DisplacedKeepsInv(Appended(st, s), s.id, fx);
    case Close(id, fx) =>
      RemoveKeepsInv(st.list, id, Head, false);
      var next := Remove(st.list, id, Head, false).next;
      if next.Some? { DisplacedKeepsInv(Closed(Stopped(st, id, fx), id), next.value.id, fx); }
    case TakeOver => RemoveKeepsInv(st.list, PlayBack, Head, true);
    case CloseAll =>
  }

  lemma {:induction false} RunKeepsInv(isolated: bool, events: seq<Event>)
    ensures Inv(Run(Initial(isolated), events).list) && |Prompts(Run(Initial(isolated), events).list)| <= 4
    decreases |events|
  {
    if events != [] {
      hide Inv, Step;
      RunKeepsInv(isolated, events[..|events| - 1]);
      StepKeepsInv(Run(Initial(isolated), events[..|events| - 1]), events[|events| - 1]);
    }
    assert Inv(Run(Initial(isolated), events).list);
    InvBound(Run(Initial(isolated), events).list);
  }

  // ---------------------------------------------------------------- the order of the prompts

  /** a is b with some of its elements left out. */
  ghost predicate Subsequence(a: seq<Status>, b: seq<Status>)
    decreases |b|
  {
    if a == [] then true
    else if b == [] then false
    else
      || Subsequence(a, b[..|b| - 1])
      || (a[|a| - 1] == b[|b| - 1] && Subsequence(a[..|a| - 1], b[..|b| - 1]))
  }

  lemma {:induction false} SubsequenceFits(a: seq<Status>, b: seq<Status>)
    requires Subsequence(a, b)
    ensures |a| <= |b|
    ensures |a| == |b| ==> a == b
    decreases |b|
  {
    if a != [] {
      if Subsequence(a, b[..|b| - 1]) {
        SubsequenceFits(a, b[..|b| - 1]);
      } else {
        SubsequenceFits(a[..|a| - 1], b[..|b| - 1]);
        assert a == a[..|a| - 1] + [a[|a| - 1]] && b == b[..|b| - 1] + [b[|b| - 1]];
      }
    }
  }

  lemma BothGrow(a: seq<Status>, b: seq<Status>, x: Status)
    requires Subsequence(a, b)
    ensures Subsequence(a + [x], b + [x])
  {
    assert (a + [x])[..|a|] == a && (b + [x])[..|b|] == b;
  }

  /** Leaving out one more element. */
  lemma {:induction false} LeaveOut(a: seq<Status>, i: nat, b: seq<Status>)
    requires i < |a| && Subsequence(a, b)
    ensures Subsequence(Without(a, i), b)
    decreases |b|
  {
    var front := b[..|b| - 1];
    if Subsequence(a, front) {
      LeaveOut(a, i, front);
    } else if i == |a| - 1 {
      assert Without(a, i) == a[..|a| - 1];
    } else {
      LeaveOut(a[..|a| - 1], i, front);
      assert Without(a, i)[..|a| - 2] == Without(a[..|a| - 1], i);
    }
  }

  lemma {:induction false} LeaveOutRest(a: seq<Status>, n: nat, b: seq<Status>)
    requires n <= |a| && Subsequence(a, b)
    ensures Subsequence(a[..n], b)
    decreases |a|
  {
    if n == |a| {
      assert a[..n] == a;
    } else {
      LeaveOut(a, |a| - 1, b);
      assert Without(a, |a| - 1) == a[..|a| - 1] && a[..|a| - 1][..n] == a[..n];
      LeaveOutRest(a[..|a| - 1], n, b);
    }
  }

  /** What is kept is what came in, in order, but for as many as were lost. */
  ghost predicate Balanced(kept: seq<Status>, accepted: seq<Status>, lost: nat) {
    Subsequence(kept, accepted) && |kept| + lost == |accepted|
  }

  lemma BalancedIsAll(kept: seq<Status>, accepted: seq<Status>, lost: nat)
    requires Balanced(kept, accepted, lost)
    ensures kept == accepted <==> lost == 0
  {
    SubsequenceFits(kept, accepted);
  }

  lemma BalancedGrows(kept: seq<Status>, accepted: seq<Status>, lost: nat, s: Status)
    requires Balanced(kept, accepted, lost)
    ensures Balanced(kept + [s], accepted + [s], lost)
  {
    hide Subsequence;
    BothGrow(kept, accepted, s);
  }

  lemma BalancedLoses(kept: seq<Status>, accepted: seq<Status>, lost: nat, i: nat)
    requires Balanced(kept, accepted, lost) && i < |kept|
    ensures Balanced(Without(kept, i), accepted, lost + 1)
  {
    hide Subsequence;
    LeaveOut(kept, i, accepted);
  }

  lemma BalancedCut(kept: seq<Status>, accepted: seq<Status>, lost: nat, n: nat)
    requires Balanced(kept, accepted, lost) && n <= |kept|
    ensures Balanced(kept[..n], accepted, lost + (|kept| - n))
  {
    hide Subsequence;
    LeaveOutRest(kept, n, accepted);
  }

  /** The prompts that were handed to the player and those still waiting. */
  function Served(st: State): seq<Status> {
    Prompts(st.played) + Waiting(st.list)
  }

  /** The prompts that came off the list by their own CLOSE and those still listed. */
  function Kept(st: State): seq<Status> {
    st.ended + Prompts(st.list)
  }

  ghost predicate Ledger(st: State) {
    && Balanced(Served(st), st.accepted, st.skipped)
    && Balanced(Kept(st), st.accepted, st.taken)
  }

  /** What appending does to the prompts of the list. */
  lemma AppendPrompts(l: seq<Status>, s: Status)
    ensures var a := Append(l, s);
      && (!a.accepted || !Prompt(s) ==> Prompts(a.list) == Prompts(l))
      && (a.cleared ==> a.accepted && a.open && Prompts(a.list) == [s])
      && (a.accepted && Prompt(s) && !a.cleared ==>
            Prompts(a.list) == Prompts(l) + [s] && (a.open <==> Prompts(l) == []))
  {
    hide Prompts, IncomingCalls, HasPrompt, HasStream;
    PromptsBound(l);
    PromptsOne(s);
    PromptsConcat(l, [s]);
    PromptsConcat([s], l);
  }

  lemma AppendKeepsServed(st: State, s: Status)
    requires Balanced(Served(st), st.accepted, st.skipped)
    ensures Balanced(Served(Appended(st, s)), Appended(st, s).accepted, Appended(st, s).skipped)
  {
    var a, after := Append(st.list, s), Appended(st, s);
    AppendPrompts(st.list, s);
    PromptsOne(s);
    PromptsConcat(st.played, [s]);
    hide Prompts, Balanced, Append;
    if !Prompt(s) || !a.accepted {
      AppendOpensAccepted(st.list, s);
      assert Served(after) == Served(st);
    } else if a.cleared {
      var n := |Prompts(st.played)|;
      BalancedCut(Served(st), st.accepted, st.skipped, n);
      assert Served(st)[..n] == Prompts(st.played);
      BalancedGrows(Prompts(st.played), st.accepted, st.skipped + |Waiting(st.list)|, s);
      assert Served(after) == Prompts(st.played) + [s];
    } else {
      BalancedGrows(Served(st), st.accepted, st.skipped, s);
      assert Served(after) == Served(st) + [s];
    }
  }

  lemma AppendOpensAccepted(l: seq<Status>, s: Status)
    ensures Append(l, s).open || Append(l, s).cleared ==> Append(l, s).accepted
    ensures !Prompt(s) ==> !Append(l, s).cleared
  {}

  lemma AppendKeepsKept(st: State, s: Status)
    requires Balanced(Kept(st), st.accepted, st.taken)
    ensures Balanced(Kept(Appended(st, s)), Appended(st, s).accepted, Appended(st, s).taken)
  {
    var a, after := Append(st.list, s), Appended(st, s);
    AppendPrompts(st.list, s);
    AppendOpensAccepted(st.list, s);
    hide Prompts, Balanced, Append, Waiting;
    if !Prompt(s) || !a.accepted {
      assert Kept(after) == Kept(st);
    } else if a.cleared {
      BalancedCut(Kept(st), st.accepted, st.taken, |st.ended|);
      assert Kept(st)[..|st.ended|] == st.ended;
      BalancedGrows(st.ended, st.accepted, st.taken + |Prompts(st.list)|, s);
    } else {
      BalancedGrows(Kept(st), st.accepted, st.taken, s);
      assert Kept(after) == Kept(st) + [s];
    }
  }

  lemma {:induction false} AllPrompts(l: seq<Status>, k: nat)
    requires k <= |l| && forall j :: k <= j < |l| ==> Prompt(l[j])
    ensures Prompts(l[k..]) == l[k..]
    decreases |l| - k
  {
    if k < |l| { AllPrompts(l, k + 1); }
  }

  /** The prompts of a sorted list are its tail from the playing one on. */
  lemma PromptsAreTail(l: seq<Status>)
    requires Sorted(l) && HasPrompt(l)
    ensures Prompts(l) == l[FirstPrompt(l)..]
  {
    hide Prompts, IncomingCalls, FirstPrompt;
    var i := FirstPrompt(l);
    assert l == l[..i] + l[i..];
    PromptsConcat(l[..i], l[i..]);
    NoPrompts(l[..i]);
    AllPrompts(l, i);
  }

  /** When the playing prompt ends, the next waiting prompt is opened, or a stream if there is none. */
  lemma NextIsPrompt(l: seq<Status>)
    requires Sorted(l) && HasPrompt(l)
    ensures var next := Remove(l, PlayBack, Head, false).next;
      && (Waiting(l) != [] ==> next == Some(Waiting(l)[0]))
      && (Waiting(l) == [] && HasStream(l) ==> next == Some(l[0]) && !Prompt(l[0]))
      && (Waiting(l) == [] && !HasStream(l) ==> next == None)
  {
    PromptsAreTail(l);
    if HasStream(l) { FrontIsNoPrompt(l); }
    hide Prompts, IncomingCalls, FirstPrompt, HasPrompt, HasStream, Sorted;
    assert Waiting(l) == l[FirstPrompt(l) + 1..];
  }

  /** Closing the playing prompt turns the first waiting prompt into a started one. */
  lemma PromptClosed(st: State)
    requires Inv(st.list) && HasPrompt(st.list)
    ensures Served(Closed(st, PlayBack)) == Served(st) && Kept(Closed(st, PlayBack)) == Kept(st)
  {
    hide Prompts, IncomingCalls, FirstPrompt, HasPrompt, HasStream;
    var l := st.list;
    var next := Remove(l, PlayBack, Head, false).next;
    FirstRemoved(l);
    NextIsPrompt(l);
    hide Sorted, Inv;
    var after := Closed(st, PlayBack);
    assert Prompts(l)[1..] == Prompts(after.list);
    if next.Some? {
      PromptsOne(next.value);
      PromptsConcat(st.played, [next.value]);
    }
  }

  lemma CloseKeepsLedger(st: State, id: Id)
    requires Inv(st.list) && Ledger(st)
    ensures Ledger(Closed(st, id))
  {
    hide Balanced, Prompts, IncomingCalls, FirstPrompt, HasPrompt;
    if id.PlayBack? && HasPrompt(st.list) {
      hide Inv, Closed;
      PromptClosed(st);
    } else if HasStream(st.list) {
      FrontIsNoPrompt(st.list);
      HeadRemoved(st.list);
    }
  }

  /** Taking the first prompt off a list. */
  lemma FirstTaken(st: State, l2: seq<Status>)
    requires Ledger(st) && HasPrompt(st.list) && l2 == Without(st.list, FirstPrompt(st.list))
    ensures Ledger(st.(list := l2, taken := st.taken + 1,
                       skipped := st.skipped + if |Prompts(st.list)| >= 2 then 1 else 0))
  {
    FirstRemoved(st.list);
    hide Balanced, Prompts, IncomingCalls, FirstPrompt, HasPrompt, Without;
    var n := |Prompts(st.played)|;
    assert Prompts(l2) == Prompts(st.list)[1..];
    BalancedLoses(Kept(st), st.accepted, st.taken, |st.ended|);
    CutNext(st.ended, Prompts(st.list), Prompts(l2));
    if |Prompts(st.list)| >= 2 {
      BalancedLoses(Served(st), st.accepted, st.skipped, n);
      CutNext(Prompts(st.played), Waiting(st.list), Waiting(l2));
    } else {
      assert Prompts(st.played) + Waiting(l2) == Served(st);
    }
  }

  /** Taking the last entry, a prompt, off a list. */
  lemma LastTaken(st: State, l2: seq<Status>)
    requires Ledger(st) && st.list != [] && Prompt(st.list[|st.list| - 1]) && l2 == Without(st.list, |st.list| - 1)
    ensures Ledger(st.(list := l2, taken := st.taken + 1,
                       skipped := st.skipped + if |Prompts(st.list)| >= 2 then 1 else 0))
  {
    LastRemoved(st.list);
    hide Balanced, Prompts, IncomingCalls, Without;
    ListLosesLast(st.ended, Prompts(st.list), st.accepted, st.taken);
    if |Prompts(st.list)| >= 2 {
      assert Waiting(l2) == Waiting(st.list)[..|Waiting(st.list)| - 1];
      ListLosesLast(Prompts(st.played), Waiting(st.list), st.accepted, st.skipped);
    } else {
      assert Prompts(st.played) + Waiting(l2) == Served(st);
    }
  }

  lemma ListLosesLast(a: seq<Status>, b: seq<Status>, accepted: seq<Status>, lost: nat)
    requires b != [] && Balanced(a + b, accepted, lost)
    ensures Balanced(a + b[..|b| - 1], accepted, lost + 1)
  {
    hide Balanced;
    BalancedLoses(a + b, accepted, lost, |a + b| - 1);
    CutLast(a, b, b[..|b| - 1]);
  }

  lemma CutNext(a: seq<Status>, b: seq<Status>, c: seq<Status>)
    requires b != [] && c == b[1..]
    ensures a + c == Without(a + b, |a|)
  {}

  lemma CutLast(a: seq<Status>, b: seq<Status>, c: seq<Status>)
    requires b != [] && c == b[..|b| - 1]
    ensures a + c == Without(a + b, |a + b| - 1)
  {}

  /** The history does not depend on the players, and the list's prompts are all that matters. */
  lemma SamePrompts(st: State, t: State)
    requires Ledger(st) && Prompts(t.list) == Prompts(st.list)
    requires t.accepted == st.accepted && t.played == st.played && t.ended == st.ended
    requires t.skipped == st.skipped && t.taken == st.taken
    ensures Ledger(t)
  {
    hide Balanced, Prompts;
  }

  lemma DisplacedKeepsLedger(st: State, id: Id, fx: Effects)
    requires Inv(st.list) && Ledger(st)
    ensures Ledger(Displaced(st, id, fx))
  {
    var l, t := st.list, Displaced(st, id, fx);
    PromptsBound(l);
    hide Ledger, Prompts, IncomingCalls, FirstPrompt, HasPrompt, Inv;
    if Replaces(st.running, st.isolated, id, fx) {
      var former := st.running.value;
      if former.PlayBack? && HasPrompt(l) {
        FirstTaken(st, t.list);
        hide Without, Remove;
        SamePrompts(st.(list := t.list, taken := t.taken, skipped := t.skipped), t);
      } else if !former.PlayBack? && HasStream(l) {
        LastRemoved(l);
        if Prompt(l[|l| - 1]) {
          LastTaken(st, t.list);
          hide Without, Remove;
          SamePrompts(st.(list := t.list, taken := t.taken, skipped := t.skipped), t);
        } else {
          SamePrompts(st, t);
        }
      } else {
        SamePrompts(st, t);
      }
    } else {
      SamePrompts(st, t);
    }
  }

  lemma TakeOverKeepsLedger(st: State)
    requires Ledger(st)
    ensures Ledger(TakenOver(st))
  {
    var t := TakenOver(st);
    if HasPrompt(st.list) { FirstTaken(st, t.list); } else { SamePrompts(st, t); }
  }

  lemma ClearKeepsLedger(st: State)
    requires Ledger(st)
    ensures Ledger(Cleared(st))
  {
    hide Balanced;
    var n := |Prompts(st.played)|;
    BalancedCut(Served(st), st.accepted, st.skipped, n);
    assert Served(st)[..n] == Prompts(st.played) == Served(Cleared(st));
    BalancedCut(Kept(st), st.accepted, st.taken, |st.ended|);
    assert Kept(st)[..|st.ended|] == st.ended == Kept(Cleared(st));
  }

  lemma StepKeepsLedger(st: State, e: Event)
    requires Inv(st.list) && Ledger(st)
    ensures Ledger(Step(st, e))
  {
    hide Balanced, Inv, Displaced, Remove, Append, Served, Kept;
    match e
    case Open(s, fx) =>
      AppendKeepsServed(st, s);
      AppendKeepsKept(st, s);
      AppendKeepsInv(st.list, s);
      hide Ledger;
      DisplacedKeepsLedger(Appended(st, s), s.id, fx);
    case Close(id, fx) =>
      hide Ledger;
      var idle := Stopped(st, id, fx);
      SamePrompts(st, idle);
      CloseKeepsLedger(idle, id);
      RemoveKeepsInv(st.list, id, Head, false);
      var next := Remove(st.list, id, Head, false).next;
      if next.Some? { DisplacedKeepsLedger(Closed(idle, id), next.value.id, fx); }
    case TakeOver => TakeOverKeepsLedger(st);
    case CloseAll => ClearKeepsLedger(st);
  }

  lemma {:induction false} RunKeepsLedger(isolated: bool, events: seq<Event>)
    ensures Ledger(Run(Initial(isolated), events))
    decreases |events|
  {
    if events != [] {
      var front, last := events[..|events| - 1], events[|events| - 1];
      RunKeepsLedger(isolated, front);
      RunKeepsInv(isolated, front);
      hide Inv, Ledger, Step;
      StepKeepsLedger(Run(Initial(isolated), front), last);
    }
  }

  /**
   In every run the prompts handed to the player are, in order, some of the prompts accepted; every
   accepted prompt was handed over or is still waiting if and only if none was skipped.
   */
  lemma OpenedInOrder(isolated: bool, events: seq<Event>)
    ensures var st := Run(Initial(isolated), events);
      && Subsequence(Prompts(st.played), st.accepted)
      && (Prompts(st.played) + Waiting(st.list) == st.accepted <==> st.skipped == 0)
  {
    var st := Run(Initial(isolated), events);
    RunKeepsLedger(isolated, events);
    BalancedIsAll(Served(st), st.accepted, st.skipped);
    assert Served(st)[..|Prompts(st.played)|] == Prompts(st.played);
    LeaveOutRest(Served(st), |Prompts(st.played)|, st.accepted);
  }

  // ---------------------------------------------------------------- one prompt at a time

  lemma DisplacedSkips(st: State, id: Id, fx: Effects)
    ensures Displaced(st, id, fx).skipped - st.skipped <= Displaced(st, id, fx).taken - st.taken
  {
    hide Prompts, Remove, HasPrompt, HasStream, TakesPrompt;
  }

  lemma TakenOverSkips(st: State)
    ensures TakenOver(st).skipped - st.skipped <= TakenOver(st).taken - st.taken
  {
    hide Prompts, Remove, HasPrompt;
  }

  lemma StepSkips(st: State, e: Event)
    ensures Step(st, e).skipped - st.skipped <= Step(st, e).taken - st.taken
  {
    TakenOverSkips(st);
    hide Prompts, Remove, Append, Displaced, TakenOver, HasPrompt;
    match e
    case Open(s, fx) => DisplacedSkips(Appended(st, s), s.id, fx);
    case Close(id, fx) =>
      var next := Remove(st.list, id, Head, false).next;
      if next.Some? { DisplacedSkips(Closed(Stopped(st, id, fx), id), next.value.id, fx); }
    case TakeOver =>
    case CloseAll =>
  }

  /** Nothing is skipped without being taken. */
  lemma {:induction false} SkippedWasTaken(isolated: bool, events: seq<Event>)
    ensures Run(Initial(isolated), events).skipped <= Run(Initial(isolated), events).taken
    decreases |events|
  {
    if events != [] {
      SkippedWasTaken(isolated, events[..|events| - 1]);
      StepSkips(Run(Initial(isolated), events[..|events| - 1]), events[|events| - 1]);
      hide Step;
    }
  }

  /**
   In every run, every accepted prompt is still listed or came off the list by its own CLOSE if and only if
   nothing else took one off. Then prompts are started one at a time in the order accepted: those
   started are those that came off, and the one at the head of the list's prompts, if any.
   */
  lemma OneAtATime(isolated: bool, events: seq<Event>)
    ensures var st := Run(Initial(isolated), events);
      && (st.ended + Prompts(st.list) == st.accepted <==> st.taken == 0)
      && (st.taken == 0 ==>
            Prompts(st.played) == st.ended + (if HasPrompt(st.list) then [st.list[FirstPrompt(st.list)]] else []))
  {
    var st := Run(Initial(isolated), events);
    RunKeepsLedger(isolated, events);
    RunKeepsInv(isolated, events);
    SkippedWasTaken(isolated, events);
    hide Run, Prompts, FirstPrompt, Balanced, HasPrompt;
    BalancedIsAll(Kept(st), st.accepted, st.taken);
    BalancedIsAll(Served(st), st.accepted, st.skipped);
    if st.taken == 0 {
      hide Inv;
      HeadStarted(st);
    }
  }

  lemma HeadStarted(st: State)
    requires Inv(st.list) && Served(st) == Kept(st)
    ensures Prompts(st.played) == st.ended + (if HasPrompt(st.list) then [st.list[FirstPrompt(st.list)]] else [])
  {
    PromptsBound(st.list);
    if HasPrompt(st.list) { PromptsAreTail(st.list); }
    hide Prompts, Inv, FirstPrompt;
    var all := Prompts(st.list);
    if all != [] {
      var first := st.ended + [all[0]];
      assert Prompts(st.played) + all[1..] == first + all[1..];
      assert (Prompts(st.played) + all[1..])[..|first|] == first;
    } else {
      assert Prompts(st.played) + [] == st.ended + [];
    }
  }

  // ---------------------------------------------------------------- prompts and streams

  /** Everything the players are asked to do succeeds. */
  const ALL_WELL := Effects(true, true, true)

  /**
   A prompt over music. The prompt is started, but stopping the music removes the entry at the tail of
   the list, and that is the prompt just appended. When it ends, the list has nothing to start, so the
   music that is still listed is not resumed by it.
   */
  lemma PromptOverStream(st: State, a: Status, id: Id)
    requires Inv(st.list) && HasStream(st.list) && !HasPrompt(st.list)
    requires st.running == Some(id) && !id.PlayBack? && Prompt(a) && Append(st.list, a).accepted
    ensures var over := Step(st, Open(a, ALL_WELL)); var ended := Step(over, Close(PlayBack, ALL_WELL));
      && over.list == st.list && over.running == Some(PlayBack) && over.played == st.played + [a]
      && ended.list == st.list && ended.running == None && ended.played == over.played
  {
    var l := st.list;
    assert Append(l, a).list == l + [a];
    hide Prompts, Inv;
    var s :| s in l && Stream(s);
    assert s in l + [a] && HasStream(l + [a]);
    assert Without(l + [a], |l|) == l;
    var after := Appended(st, a);
    assert Displaced(after, PlayBack, ALL_WELL).list == l;
  }

  lemma TwoPromptsStarted(isolated: bool, a: Status, b: Status)
    requires Prompt(a) && Prompt(b) && !a.incomingCall && !b.incomingCall
    ensures var s1 := Step(Initial(isolated), Open(a, ALL_WELL));
      && s1 == State(isolated, [a], Some(PlayBack), [a], [a], [], 0, 0)
      && Step(s1, Open(b, ALL_WELL)) == State(isolated, [a, b], Some(PlayBack), [a, b], [a], [], 0, 0)
  {
    hide Prompts, IncomingCalls;
    var none: seq<Status> := [];
    assert none + [a] == [a] && [a] + [b] == [a, b];
    assert Append(none, a) == Appending([a], true, true, false);
    assert a in [a] && HasPrompt([a]);
    assert Append([a], b) == Appending([a, b], false, true, false);
  }

  lemma StreamBeforeTwo(a: Status, b: Status, m: Status)
    requires Prompt(a) && Prompt(b) && Stream(m)
    ensures var l := [m, a, b];
      && Append([a, b], m) == Appending(l, true, true, false)
      && Remove(l, PlayBack, Tail, false).list == [m, b]
      && HasPrompt(l)
  {
    var l := [m, a, b];
    assert [m] + [a, b] == l;
    assert l[1] == a && HasPrompt(l) && FirstPrompt(l) == 1;
    assert Without(l, 1) == [m, b];
  }

  lemma PromptsOfTwo(a: Status, b: Status, m: Status)
    requires Prompt(a) && Prompt(b) && Stream(m)
    ensures Prompts([m, a, b]) == [a, b]
  {
    hide Prompts;
    assert [m, a, b] == [m] + ([a] + [b]);
    PromptsConcat([m], [a] + [b]);
    PromptsConcat([a], [b]);
    PromptsOne(a);
    PromptsOne(b);
    PromptsOne(m);
  }

  lemma MusicReplaces(st: State, a: Status, b: Status, m: Status)
    requires st.list == [a, b] && st.running == Some(PlayBack) && Prompt(a) && Prompt(b) && Stream(m) && Output(m.id)
    ensures Step(st, Open(m, ALL_WELL)) ==
      st.(list := [m, b], running := Some(m.id), played := st.played + [m],
          skipped := st.skipped + 1, taken := st.taken + 1)
  {
    hide Prompts, Append, Remove, HasPrompt, Skips, TakesPrompt, Waiting;
    StreamBeforeTwo(a, b, m);
    SkipsOne([m, a, b], a, b, m);
    var after := Appended(st, m);
    assert after == st.(list := [m, a, b], played := st.played + [m]);
    assert Replaces(after.running, after.isolated, m.id, ALL_WELL);
  }

  lemma SkipsOne(l: seq<Status>, a: Status, b: Status, m: Status)
    requires l == [m, a, b] && Prompt(a) && Prompt(b) && Stream(m)
    ensures TakesPrompt(l, PlayBack) && Skips(l, PlayBack) == 1
  {
    hide Prompts;
    PromptsOfTwo(a, b, m);
    assert l[1] == a && HasPrompt(l);
  }

  lemma MusicEnds(st: State, b: Status, m: Status)
    requires st.list == [m, b] && st.running == Some(m.id) && Prompt(b) && Stream(m)
    ensures Step(st, Close(m.id, ALL_WELL)) == st.(list := [b], running := None)
  {
    assert st.list[0] == m && HasStream(st.list);
    assert Without([m, b], 0) == [b];
    hide Prompts, HasPrompt, HasStream;
  }

  /**
   Two prompts and then music, which replaces the playing one and ends again: the second prompt is listed
   as the playing one, but nothing is running and it was never started.
   */
  lemma StreamOverPrompts(isolated: bool, a: Status, b: Status, m: Status)
    requires Prompt(a) && Prompt(b) && !a.incomingCall && !b.incomingCall && Stream(m) && Output(m.id)
    ensures var playing := Step(Step(Initial(isolated), Open(a, ALL_WELL)), Open(b, ALL_WELL));
      var st := Step(Step(playing, Open(m, ALL_WELL)), Close(m.id, ALL_WELL));
      st.list == [b] && st.running == None && st.accepted == [a, b] && st.played == [a, m] && st.skipped == 1
  {
    hide Step;
    TwoPromptsStarted(isolated, a, b);
    var playing := Step(Step(Initial(isolated), Open(a, ALL_WELL)), Open(b, ALL_WELL));
    MusicReplaces(playing, a, b, m);
    MusicEnds(Step(playing, Open(m, ALL_WELL)), b, m);
  }

  /** Requests to play a prompt or to end a stream. */
  predicate PromptOrStreamEnd(e: Event) {
    (e.Open? && Prompt(e.s)) || (e.Close? && !e.id.PlayBack?)
  }

  lemma StallStep(st: State, e: Event)
    requires Sorted(st.list) && HasPrompt(st.list) && PromptOrStreamEnd(e)
    requires |st.list| < MAX_AUDIO_BUF_LIST || HasIncomingCall(st.list)
    ensures var t := Step(st, e);
      && t.played == st.played
      && Sorted(t.list) && HasPrompt(t.list) && (|t.list| < MAX_AUDIO_BUF_LIST || HasIncomingCall(t.list))
  {
    hide Prompts, IncomingCalls, Sorted;
    var l := st.list;
    var t := Step(st, e);
    if e.Open? {
      if !Filtered(l, e.s) {
        AppendSorted(l, e.s);
        assert t.list == l + [e.s];
        StillListed(l, l + [e.s]);
        assert t.list[|l|] == e.s;
      } else {
        assert t.list == l;
      }
    } else if HasStream(l) {
      FrontIsNoPrompt(l);
      assert t.list == Without(l, 0);
      TailListed(l);
    } else {
      assert t.list == l;
    }
  }

  lemma StillListed(l: seq<Status>, more: seq<Status>)
    requires l <= more
    ensures HasPrompt(l) ==> HasPrompt(more)
    ensures HasIncomingCall(l) ==> HasIncomingCall(more)
  {
    if HasPrompt(l) {
      var s :| s in l && Prompt(s);
      assert s in more;
    }
    if HasIncomingCall(l) {
      var s :| s in l && Prompt(s) && s.incomingCall;
      assert s in more;
    }
  }

  lemma TailListed(l: seq<Status>)
    requires Sorted(l) && l != [] && !Prompt(l[0])
    ensures Sorted(Without(l, 0)) && Without(l, 0) == l[1..]
    ensures HasPrompt(l) ==> HasPrompt(l[1..])
    ensures HasIncomingCall(l) ==> HasIncomingCall(l[1..])
  {
    assert Without(l, 0) == l[1..];
    assert forall s <- l :: s == l[0] || s in l[1..];
  }

  /**
   The stall. With a prompt listed on a list that is not full, requests to play prompts and to end
   streams start nothing at all, however many there are: a prompt left at the head as above blocks
   every prompt after it until a CLOSE of the prompt player, which is not running, or a new stream.
   */
  lemma {:induction false} Stalled(st: State, events: seq<Event>)
    requires Sorted(st.list) && HasPrompt(st.list) && |st.list| < MAX_AUDIO_BUF_LIST
    requires forall e <- events :: PromptOrStreamEnd(e)
    ensures var t := Run(st, events);
      && t.played == st.played
      && Sorted(t.list) && HasPrompt(t.list) && (|t.list| < MAX_AUDIO_BUF_LIST || HasIncomingCall(t.list))
    decreases |events|
  {
    if events != [] {
      var front, last := events[..|events| - 1], events[|events| - 1];
      assert last in events;
      Stalled(st, front);
      hide Step, HasPrompt, HasIncomingCall, Sorted;
      StallStep(Run(st, front), last);
    }
  }

  // ---------------------------------------------------------------- how many prompts are taken

  ghost function Opens(ps: seq<Status>): (r: seq<Event>)
    ensures |r| == |ps|
  {
    seq(|ps|, i requires 0 <= i < |ps| => Open(ps[i], ALL_WELL))
  }

  function FirstOf(ps: seq<Status>, n: nat): seq<Status> {
    if |ps| <= n then ps else ps[..n]
  }

  lemma OrdinaryAppend(l: seq<Status>, s: Status)
    requires Prompt(s) && !s.incomingCall && |l| <= 3 && forall x <- l :: Prompt(x)
    ensures Append(l, s) ==
      if |l| == 3 then Appending(l, false, false, false) else Appending(l + [s], l == [], true, false)
  {
    if l != [] { assert l[0] in l; }
  }

  /** One more ordinary prompt: it is taken, and started if it is the first, unless three are listed. */
  lemma OrdinaryOpen(st: State, s: Status, ps: seq<Status>)
    requires Prompt(s) && !s.incomingCall && forall x <- ps :: Prompt(x)
    requires st == State(st.isolated, FirstOf(ps, 3), if ps == [] then None else Some(PlayBack),
                         FirstOf(ps, 3), FirstOf(ps, 1), [], 0, 0)
    ensures Step(st, Open(s, ALL_WELL)) ==
      State(st.isolated, FirstOf(ps + [s], 3), Some(PlayBack), FirstOf(ps + [s], 3), FirstOf(ps + [s], 1), [], 0, 0)
  {
    var l := FirstOf(ps, 3);
    assert forall x <- l :: Prompt(x);
    OrdinaryAppend(l, s);
    assert FirstOf(ps + [s], 3) == if |ps| < 3 then ps + [s] else l;
    assert FirstOf(ps + [s], 1) == if ps == [] then [s] else FirstOf(ps, 1);
    hide Append, Prompts, Waiting;
  }

  /** Of any number of ordinary prompts in a row the first three are taken, and the first is started. */
  lemma {:induction false} FirstThreeAreTaken(isolated: bool, ps: seq<Status>)
    requires forall p <- ps :: Prompt(p) && !p.incomingCall
    ensures Run(Initial(isolated), Opens(ps)) ==
      State(isolated, FirstOf(ps, 3), if ps == [] then None else Some(PlayBack),
            FirstOf(ps, 3), FirstOf(ps, 1), [], 0, 0)
    decreases |ps|
  {
    if ps != [] {
      var n := |ps| - 1;
      assert Opens(ps)[..n] == Opens(ps[..n]) && Opens(ps)[n] == Open(ps[n], ALL_WELL);
      FirstThreeAreTaken(isolated, ps[..n]);
      hide Step, FirstOf;
      OrdinaryOpen(Run(Initial(isolated), Opens(ps[..n])), ps[n], ps[..n]);
      assert ps[..n] + [ps[n]] == ps;
    }
  }

  /** An incoming call is taken exactly when no other is listed, however many prompts wait. */
  lemma CallTaken(l: seq<Status>, s: Status)
    requires Inv(l) && |l| < POOL && Prompt(s) && s.incomingCall
    ensures Append(l, s) ==
      if IncomingCalls(l) == 0 then Appending(l + [s], Prompts(l) == [], true, false)
      else Appending(l, false, false, false)
  {
    hide Inv, Prompts, IncomingCalls;
    PromptsBound(l);
  }

  /** With room left a stream is always taken, in front, and started; an ordinary prompt among at most two entries. */
  lemma RoomTakes(l: seq<Status>, s: Status)
    requires |l| < POOL && !(Prompt(s) && s.incomingCall)
    ensures Append(l, s) ==
      if !Prompt(s) then Appending([s] + l, true, true, false)
      else if |l| <= 2 then Appending(l + [s], Prompts(l) == [], true, false)
      else Appending(l, false, false, false)
  {
    PromptsBound(l);
  }

  /**
   A full list takes nothing, with one exception: an incoming call while another prompt plays and neither a call nor
   a stream is listed throws everything away.
   */
  lemma FullListTakes(l: seq<Status>, s: Status)
    requires |l| == POOL
    ensures Append(l, s) ==
      if Prompt(s) && s.incomingCall && Prompts(l) != [] && IncomingCalls(l) == 0 && !HasStream(l)
      then Appending([s], true, true, true) else Appending(l, false, false, false)
  {
    PromptsBound(l);
  }

  // ---------------------------------------------------------------- which player runs

  /**
   One player at a time: when input players may not run beside output players, or the new one is an output
   player, exactly one player runs after a start that succeeds. It is the new one, and the entry of the one that
   ran is gone.
   */
  lemma StartedAlone(l: seq<Status>, running: Option<Id>, isolated: bool, id: Id, fx: Effects)
    requires !isolated || (Output(id) && running != Some(id))
    requires fx.starts && (running.Some? ==> fx.stops)
    ensures Started(l, running, isolated, id, fx) ==
      Opening(if running.Some? then Remove(l, running.value, Tail, false).list else l, Some(id))
  {}

  /** A player in the way that cannot be stopped, or that is the new one, keeps everything as it is. */
  lemma StartRefused(l: seq<Status>, running: Option<Id>, isolated: bool, id: Id, fx: Effects)
    requires running.Some?
    requires if isolated then running.value == id || (Output(id) && !fx.stops) else !fx.stops
    ensures Started(l, running, isolated, id, fx) == Opening(l, running)
  {}

  /** An input player that may run beside the others disturbs neither the list nor the output player. */
  lemma InputBeside(l: seq<Status>, running: Option<Id>, id: Id, fx: Effects)
    requires !Output(id)
    ensures Started(l, running, true, id, fx) == Opening(l, running)
  {}

  /** A player that is stopped for one that then does not start is gone all the same, and nothing runs. */
  lemma StoppedForNothing(l: seq<Status>, running: Option<Id>, isolated: bool, id: Id, fx: Effects)
    requires !isolated || (Output(id) && running != Some(id))
    requires !fx.starts && (running.Some? ==> fx.stops)
    ensures Started(l, running, isolated, id, fx) ==
      Opening(if running.Some? then Remove(l, running.value, Tail, false).list else l, None)
  {}

  /** A CLOSE stops its own player and no other; with nothing to follow nothing is started. */
  lemma CloseStops(st: State, id: Id, fx: Effects)
    requires Remove(st.list, id, Head, false).next.None?
    ensures var t := Step(st, Close(id, fx));
      && t.running == (if st.running == Some(id) && fx.closes then None else st.running)
      && t.played == st.played
  {
    hide Remove;
  }

  /** When the player that ran is closed, the next in the list runs. */
  lemma CloseStartsNext(st: State, id: Id, next: Status)
    requires Remove(st.list, id, Head, false).next == Some(next)
    requires st.running == Some(id) || st.running == None
    ensures var t := Step(st, Close(id, ALL_WELL));
      && t.running == (if !st.isolated || Output(next.id) then Some(next.id) else None)
      && t.list == Remove(st.list, id, Head, false).list && t.played == st.played + [next]
  {
    hide Remove, FirstPrompt, Prompts;
  }

  /** CLOSEALL leaves nothing listed and nothing running. */
  lemma CloseAllEnds(st: State)
    ensures var t := Step(st, CloseAll);
      t.list == [] && t.running == None && t.played == st.played && t.accepted == st.accepted && t.ended == st.ended
  {}

  /** Another player that takes over the playing prompt is given exactly that prompt, and the others stay listed. */
  lemma TakeOverGetsPlaying(l: seq<Status>, pos: Position)
    requires HasPrompt(l)
    ensures var r := Remove(l, PlayBack, pos, true);
      Prompts(l) != [] && r.next == Some(Prompts(l)[0]) && Prompts(r.list) == Prompts(l)[1..]
  {
    PromptsBound(l);
    FirstRemoved(l);
    hide Prompts, HasPrompt;
  }
}
