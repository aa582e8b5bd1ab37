/**
 * Joining a class from the course plaza: one join request at a time, shared by the invite link
 * and the box a code is typed into, while client navigation swaps the invite under the page.
 * `Plaza` says what every step does to the fields; `PlazaPage` updates them in place.
 */
module InviteJoin {
  import opened Prelude
  import opened JsText

  datatype Status = Idle | Pending | Succeeded(message: string) | Failed(message: string)

  datatype Outcome = Joined(message: string) | NotJoined(message: string)

  /** A join request, by the status line it answers. */
  datatype Submission = Link(param: Option<string>, code: string) | Manual(code: string)

  /**
   * `shown` is the invite the last render was for and `current` the ref an effect copies it to.
   * `open` and `answered` are bookkeeping: the requests without an answer, and the answers so far.
   */
  datatype Plaza = Plaza(
    shown: Option<string>,
    current: Option<string>,
    entryParam: Option<string>,
    entry: Status,
    manual: Status,
    inFlight: bool,
    open: seq<Submission>,
    answered: seq<(Submission, Status)>)

  datatype Event =
    | Navigate(param: Option<string>)
    | SyncRef
    | ClickJoin
    | SubmitManual(typed: string)
    | Answer(index: nat, outcome: Outcome)

  const INVALID_CODE := "That invite code is not a valid code. Check it and try again."

  predicate IsInviteCode(s: string) {
    1 <= |s| <= 64 && IsLetterOrDigit(s[0]) && forall i :: 1 <= i < |s| ==> IsNameChar(s[i])
  }

  /** The code in the link: absent, invalid, or the trimmed parameter. */
  function LinkCode(param: Option<string>): Option<string> {
    if param.Some? && IsInviteCode(Trim(param.value)) then Some(Trim(param.value)) else None
  }

  function StatusOf(outcome: Outcome): Status {
    match outcome
    case Joined(m) => Succeeded(m)
    case NotJoined(m) => Failed(m)
  }

  function Start(param: Option<string>): Plaza {
    Plaza(param, param, param, Idle, Idle, false, [], [])
  }

  /** The status a render shows: only the entry of the invite on screen. */
  function Displayed(p: Plaza): Status {
    if p.entryParam == p.shown then p.entry else Idle
  }

  /** A status is written while its own invite is current; a superseded one resets its own entry. */
  function Commit(p: Plaza, param: Option<string>, status: Status): Plaza {
    if p.current == param then p.(entryParam := param, entry := status)
    else if p.entryParam != param then p
    else p.(entry := Idle)
  }

  function Click(p: Plaza): Plaza {
    var code := LinkCode(p.shown);
    if code == None || p.inFlight then p
    else Commit(p.(inFlight := true, open := p.open + [Link(p.shown, code.value)]), p.shown, Pending)
  }

  function TypeIn(p: Plaza, typed: string): Plaza {
    var code := Trim(typed);
    if p.inFlight then p
    else if !IsInviteCode(code) then p.(manual := Failed(INVALID_CODE))
    else p.(inFlight := true, manual := Pending, open := p.open + [Manual(code)])
  }

  /** The answer to an open request, or its failure; either way the request is over. */
  function Receive(p: Plaza, index: nat, outcome: Outcome): Plaza
    requires index < |p.open|
  {
    var done := p.open[index];
    var status := StatusOf(outcome);
    var q := match done
      case Link(param, _) => Commit(p, param, status)
      case Manual(_) => p.(manual := status);
    q.(inFlight := false, open := p.open[..index] + p.open[index + 1..], answered := p.answered + [(done, status)])
  }

  function Next(p: Plaza, e: Event): Plaza {
    match e
    case Navigate(param) => p.(shown := param)
    case SyncRef => p.(current := p.shown)
    case ClickJoin => Click(p)
    case SubmitManual(typed) => TypeIn(p, typed)
    case Answer(i, outcome) => if i < |p.open| then Receive(p, i, outcome) else p
  }

  function Run(p: Plaza, events: seq<Event>): Plaza {
    if events == [] then p else Next(Run(p, events[..|events| - 1]), events[|events| - 1])
  }

  /** A settled status is the answer to a request of the same status line. */
  ghost predicate Earned(answered: seq<(Submission, Status)>, param: Option<string>, status: Status) {
    exists i :: 0 <= i < |answered| && answered[i].0.Link? && answered[i].0.param == param && answered[i].1 == status
  }

  ghost predicate PlazaOk(p: Plaza) {
    && |p.open| <= 1 && (p.inFlight <==> |p.open| == 1)
    && (p.entry == Pending ==> |p.open| == 1 && p.open[0].Link? && p.open[0].param == p.entryParam)
    && (p.manual == Pending <==> |p.open| == 1 && p.open[0].Manual?)
    && (p.entry == Idle || p.entry == Pending || Earned(p.answered, p.entryParam, p.entry))
    && (forall i :: 0 <= i < |p.open| && p.open[i].Link? ==> LinkCode(p.open[i].param) == Some(p.open[i].code))
  }

  lemma EarnedGrows(answered: seq<(Submission, Status)>, more: seq<(Submission, Status)>, param: Option<string>, status: Status)
    requires answered <= more && Earned(answered, param, status)
    ensures Earned(more, param, status)
  {
    var i :| 0 <= i < |answered| && answered[i].0.Link? && answered[i].0.param == param && answered[i].1 == status;
    assert more[i] == answered[i];
  }

  lemma ReceiveOk(p: Plaza, outcome: Outcome)
    requires PlazaOk(p) && |p.open| == 1
    ensures PlazaOk(Receive(p, 0, outcome))
  {
    var q := Receive(p, 0, outcome);
    assert q.answered[|p.answered|] == (p.open[0], StatusOf(outcome));
    if q.entry != Idle && q.entry == p.entry && q.entryParam == p.entryParam && p.entry != Pending {
      EarnedGrows(p.answered, q.answered, p.entryParam, p.entry);
    }
  }

  lemma NextOk(p: Plaza, e: Event)
    requires PlazaOk(p)
    ensures PlazaOk(Next(p, e))
  {
    match e
    case Answer(i, outcome) =>
      if i < |p.open| {
        ReceiveOk(p, outcome);
      }
    case _ =>
  }

  lemma {:induction false} RunOk(p: Plaza, events: seq<Event>)
    requires PlazaOk(p)
    ensures PlazaOk(Run(p, events))
  {
    if events != [] {
      RunOk(p, events[..|events| - 1]);
      NextOk(Run(p, events[..|events| - 1]), events[|events| - 1]);
    }
  }

  /**
   * Over every run of navigation, clicks and answers: at most one join request is open across link
   * and box, a stored pending status belongs to that request, and a stored result is the answer to
   * a request for the very invite it is shown under.
   */
  lemma SingleFlight(param: Option<string>, events: seq<Event>)
    ensures var p := Run(Start(param), events);
      && |p.open| <= 1
      && (p.entry == Pending ==> |p.open| == 1 && p.open[0].Link? && p.open[0].param == p.entryParam)
      && (p.manual == Pending <==> |p.open| == 1 && p.open[0].Manual?)
      && (Displayed(p) == Idle || Displayed(p) == Pending || Earned(p.answered, p.shown, Displayed(p)))
  {
    RunOk(Start(param), events);
  }

  /** A revisit to an invite never finds a frozen panel: without an open request nothing is pending. */
  lemma NothingFrozen(param: Option<string>, events: seq<Event>)
    requires Run(Start(param), events).open == []
    ensures var p := Run(Start(param), events);
      && p.entry != Pending && p.manual != Pending && !p.inFlight
      && (LinkCode(p.shown).Some? ==> Click(p).open == [Link(p.shown, LinkCode(p.shown).value)])
  {
    RunOk(Start(param), events);
  }

  /**
   * What an answer may write: the status line of its own request only, and for a link its result
   * only while that invite is current. Otherwise its own entry becomes idle and any other stays.
   */
  lemma AnswerWrites(param: Option<string>, events: seq<Event>, outcome: Outcome)
    requires |Run(Start(param), events).open| == 1
    ensures var p := Run(Start(param), events);
      var q := Next(p, Answer(0, outcome));
      var s := p.open[0];
      && q.open == [] && !q.inFlight
      && (s.Manual? ==> q.manual == StatusOf(outcome) && q.entry == p.entry && q.entryParam == p.entryParam)
      && (s.Link? ==> q.manual == p.manual)
      && (s.Link? && s.param == p.current ==> q.entryParam == s.param && q.entry == StatusOf(outcome))
      && (s.Link? && s.param != p.current && p.entryParam == s.param ==> q.entryParam == s.param && q.entry == Idle)
      && (s.Link? && s.param != p.current && p.entryParam != s.param ==> q.entryParam == p.entryParam && q.entry == p.entry)
  {
    RunOk(Start(param), events);
  }

  /** A result says what the answer said. */
  predicate Tells(status: Status, outcome: Outcome) {
    match outcome
    case Joined(message) => status == Succeeded(message)
    case NotJoined(message) => status == Status.Failed(message)
  }

  /** What a learner sees of a link's answer: the result under its own invite while that is current, and nothing under another one. */
  lemma AnswerShows(param: Option<string>, events: seq<Event>, outcome: Outcome)
    requires |Run(Start(param), events).open| == 1 && Run(Start(param), events).open[0].Link?
    ensures var p := Run(Start(param), events);
      var q := Next(p, Answer(0, outcome));
      && q.shown == p.shown
      && (p.shown == p.current == p.open[0].param ==> Tells(Displayed(q), outcome))
      && (p.shown != q.entryParam ==> Displayed(q) == Idle)
  {
    RunOk(Start(param), events);
  }

  lemma ManualAnswerShows(param: Option<string>, events: seq<Event>, outcome: Outcome)
    requires |Run(Start(param), events).open| == 1 && Run(Start(param), events).open[0].Manual?
    ensures Tells(Next(Run(Start(param), events), Answer(0, outcome)).manual, outcome)
  {
  }

  /** An invite code: 1 to 64 of the characters of a name, a letter or digit in front. */
  predicate CodeOf(typed: string, code: string) {
    && code == Trim(typed) && 1 <= |code| <= 64 && IsLetterOrDigit(code[0])
    && forall i :: 0 <= i < |code| ==> IsLetterOrDigit(code[i]) || code[i] == '.' || code[i] == '_' || code[i] == '-'
  }

  /** A click on the link joins with its trimmed code, if it has a valid one and nothing is in flight, and shows that it does. */
  lemma ClickShows(p: Plaza)
    requires PlazaOk(p)
    ensures var q := Next(p, ClickJoin);
      if p.open == [] && p.shown.Some? && CodeOf(p.shown.value, Trim(p.shown.value)) then
        && q.open == [Link(p.shown, Trim(p.shown.value))] && q.inFlight && q.manual == p.manual && q.answered == p.answered
        && (p.current == p.shown ==> Displayed(q) == Pending)
      else q == p
  {
  }

  /** Sending the box joins with the trimmed code; an invalid one is refused at once, and nothing happens while another join is in flight. */
  lemma TypeInShows(p: Plaza, typed: string)
    requires PlazaOk(p)
    ensures var q := Next(p, Event.SubmitManual(typed));
      && q.entry == p.entry && q.entryParam == p.entryParam && q.shown == p.shown && q.current == p.current
      && (p.open != [] ==> q == p)
      && (p.open == [] && CodeOf(typed, Trim(typed)) ==> q.open == [Manual(Trim(typed))] && q.manual == Pending && q.inFlight)
      && (p.open == [] && !CodeOf(typed, Trim(typed)) ==>
            q.open == [] && q.manual == Status.Failed("That invite code is not a valid code. Check it and try again."))
  {
  }

  // ---------------------------------------------------------------- the component

  class PlazaPage {
    var shown: Option<string>
    var current: Option<string>
    var entryParam: Option<string>
    var entry: Status
    var manual: Status
    var inFlight: bool
    ghost var open: seq<Submission>
    ghost var answered: seq<(Submission, Status)>

    ghost function View(): Plaza
      reads this
    {
      Plaza(shown, current, entryParam, entry, manual, inFlight, open, answered)
    }

    ghost predicate Valid()
      reads this
    {
      PlazaOk(View())
    }

    constructor (param: Option<string>)
      ensures Valid() && View() == Start(param)
    {
      shown, current, entryParam := param, param, param;
      entry, manual, inFlight := Idle, Idle, false;
      open, answered := [], [];
    }

    method Rerender(param: Option<string>)
      requires Valid()
      modifies this`shown
      ensures Valid() && View() == Next(old(View()), Navigate(param))
    {
      shown := param;
    }

    method RunEffect()
      requires Valid()
      modifies this`current
      ensures Valid() && View() == Next(old(View()), SyncRef)
    {
      current := shown;
    }

    method CommitInviteJoinStatus(param: Option<string>, status: Status)
      modifies this`entryParam, this`entry
      ensures View() == Commit(old(View()), param, status)
    {
      var isSubmissionStillCurrent := current == param;
      if isSubmissionStillCurrent {
        entryParam, entry := param, status;
      } else if entryParam == param {
        entry := Idle;
      }
    }

    /** Up to the awaited request; `sent` is the code it is made for, if any. */
    method SubmitInviteJoin() returns (sent: Option<string>)
      requires Valid()
      modifies this
      ensures Valid() && View() == Next(old(View()), ClickJoin)
      ensures sent.Some? <==> |open| > |old(open)|
    {
      sent := LinkCode(shown);
      if sent == None || inFlight {
        return None;
      }
      ghost var before := View();
      inFlight := true;
      open := open + [Link(shown, sent.value)];
      CommitInviteJoinStatus(shown, Pending);
      NextOk(before, ClickJoin);
    }

    method SubmitManualInviteJoin(typed: string) returns (sent: Option<string>)
      requires Valid()
      modifies this
      ensures Valid() && View() == Next(old(View()), Event.SubmitManual(typed))
      ensures sent.Some? <==> |open| > |old(open)|
    {
      var typedInviteCode := Trim(typed);
      if inFlight {
        return None;
      }
      if !IsInviteCode(typedInviteCode) {
        manual := Failed(INVALID_CODE);
        return None;
      }
      inFlight, manual := true, Pending;
      open := open + [Manual(typedInviteCode)];
      sent := Some(typedInviteCode);
    }

    /** The rest of a link submission once its answer is there. */
    method FinishInviteJoin(param: Option<string>, outcome: Outcome)
      requires Valid() && |open| == 1 && open[0].Link? && open[0].param == param
      modifies this
      ensures Valid() && View() == Next(old(View()), Answer(0, outcome))
    {
      ghost var before := View();
      CommitInviteJoinStatus(param, StatusOf(outcome));
      answered := answered + [(open[0], StatusOf(outcome))];
      open := [];
      inFlight := false;
      NextOk(before, Answer(0, outcome));
    }

    method FinishManualInviteJoin(outcome: Outcome)
      requires Valid() && |open| == 1 && open[0].Manual?
      modifies this
      ensures Valid() && View() == Next(old(View()), Answer(0, outcome))
    {
      ghost var before := View();
      manual := StatusOf(outcome);
      answered := answered + [(open[0], StatusOf(outcome))];
      open := [];
      inFlight := false;
      NextOk(before, Answer(0, outcome));
    }
  }
}
