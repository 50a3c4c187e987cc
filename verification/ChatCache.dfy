/** The Chat history cache of control/priv/portal_assets/portal.js under racing requests. A conversation
    is an append-only log and a message is its position in it; the server hands out contiguous pages of
    50, newest first, and a cursor when older messages remain. */
module ChatCache {
  import opened Options

  const PAGE_SIZE: nat := 50

  type Key = nat

  datatype Page = Page(messages: seq<nat>, nextBefore: Option<nat>)

  datatype Snapshot = Snapshot(messages: set<nat>, nextBefore: Option<nat>, historyLoaded: bool)

  datatype Request = Request(key: Key, id: nat, previous: Option<Snapshot>, older: bool)

  /** The cache: the conversation shown, what is held of it, and the number of the latest request. */
  datatype Chat = Chat(contextKey: Option<Key>, snapshot: Option<Snapshot>, requestId: nat)

  // ----- the server

  function Upper(length: nat, before: Option<nat>): nat {
    if before.Some? && before.value < length then before.value else length
  }

  function PageOf(length: nat, before: Option<nat>): Page {
    var hi := Upper(length, before);
    var lo := if hi > PAGE_SIZE then hi - PAGE_SIZE else 0;
    Page(seq(hi - lo, i requires 0 <= i => lo + i), if hi > PAGE_SIZE then Some(lo) else None)
  }

  // ----- the client

  function Prepare(chat: Chat, key: Key): Chat {
    if chat.contextKey == Some(key) then chat else Chat(Some(key), None, chat.requestId + 1)
  }

  function Sent(chat: Chat, key: Key, older: bool): Request {
    var c := Prepare(chat, key);
    Request(key, c.requestId + 1, c.snapshot, older)
  }

  function AfterSend(chat: Chat, key: Key): Chat {
    var c := Prepare(chat, key);
    c.(requestId := c.requestId + 1)
  }

  function Before(request: Request): Option<nat> {
    if request.older && request.previous.Some? then request.previous.value.nextBefore else None
  }

  function Held(previous: Option<Snapshot>): set<nat> {
    if previous.Some? then previous.value.messages else {}
  }

  predicate HistoryLoaded(previous: Option<Snapshot>) { previous.Some? && previous.value.historyLoaded }

  /** A refresh that may have skipped messages: the page has more below it and none of it was held. */
  predicate Gap(previous: Option<Snapshot>, page: Page, older: bool) {
    && !older && page.nextBefore.Some? && Held(previous) != {} && page.messages != []
    && forall m | m in page.messages :: m !in Held(previous)
  }

  function Merge(previous: Option<Snapshot>, page: Page, older: bool): Snapshot {
    var gap := Gap(previous, page, older);
    Snapshot(
      Held(previous) + (set m | m in page.messages),
      if !older && HistoryLoaded(previous) && !gap then previous.value.nextBefore else page.nextBefore,
      !gap && (older || HistoryLoaded(previous)))
  }

  predicate Current(chat: Chat, request: Request) {
    chat.contextKey == Some(request.key) && chat.requestId == request.id
  }

  function Commit(chat: Chat, request: Request, page: Page): Chat {
    if Current(chat, request) then chat.(snapshot := Some(Merge(request.previous, page, request.older))) else chat
  }

  /** Sending makes the new request the only current one, and it starts from what is held of its
      conversation; turning to another conversation holds nothing of it yet. */
  lemma SendOutdates(chat: Chat, key: Key, older: bool, earlier: Request)
    requires earlier.id <= chat.requestId
    ensures var c, r := AfterSend(chat, key), Sent(chat, key, older);
            && Current(c, r) && !Current(c, earlier)
            && r.previous == c.snapshot == (if chat.contextKey == Some(key) then chat.snapshot else None)
  {
  }

  // ----- coverage

  function Cursor(nextBefore: Option<nat>): nat { if nextBefore.Some? then nextBefore.value else 0 }

  /** Everything from the Load-older cursor up to `top` is held, and nothing from beyond; a cursor points
      at a message with older ones below it. */
  predicate Covers(s: Snapshot, top: nat) {
    && (forall m | Cursor(s.nextBefore) <= m < top :: m in s.messages)
    && (forall m | m in s.messages :: m < top)
    && (s.nextBefore.Some? ==> 0 < s.nextBefore.value < top)
  }

  predicate Covered(previous: Option<Snapshot>, top: nat) {
    if previous.Some? then Covers(previous.value, top) else top == 0
  }

  /** The log length that a reply to `request` brings the cache up to. */
  function Top(request: Request, top: nat, length: nat): nat {
    if Before(request).Some? then top else length
  }

  /** The one case that loses messages: a refresh that finds more below its page, over a history that was
      loaded when it was empty. */
  predicate Loses(request: Request, page: Page) {
    && !request.older && HistoryLoaded(request.previous) && Held(request.previous) == {}
    && page.nextBefore.Some?
  }

  lemma PageMeans(length: nat, before: Option<nat>)
    ensures var page, hi := PageOf(length, before), Upper(length, before);
            && (forall m :: m in page.messages <==> Cursor(page.nextBefore) <= m < hi)
            && (page.nextBefore.Some? ==> 0 < page.nextBefore.value == hi - PAGE_SIZE)
            && (page.nextBefore.None? ==> hi <= PAGE_SIZE)
  {
    var page, hi := PageOf(length, before), Upper(length, before);
    var lo := Cursor(page.nextBefore);
    forall m | lo <= m < hi ensures m in page.messages {
      assert page.messages[m - lo] == m;
    }
  }

  /** A reply computed once the log had reached `top` keeps the cache covered exactly when it is not the
      losing case. */
  lemma {:induction false} CommitExact(request: Request, top: nat, length: nat)
    requires Covered(request.previous, top) && top <= length
    ensures var page := PageOf(length, Before(request));
            Covers(Merge(request.previous, page, request.older), Top(request, top, length)) <==> !Loses(request, page)
  {
    hide PageOf, Covers;
    var before := Before(request);
    var page := PageOf(length, before);
    PageMeans(length, before);
    CoversMeans(request.previous, top);
    if Loses(request, page) {
      EmptyMeans(request.previous, top);
      LosingUncovered(request, page, length);
    } else {
      KeepingCovers(request, page, top, length);
    }
  }

  lemma CoversMeans(previous: Option<Snapshot>, top: nat)
    requires Covered(previous, top)
    ensures previous.Some? ==>
              && (forall m | Cursor(previous.value.nextBefore) <= m < top :: m in previous.value.messages)
              && (forall m | m in previous.value.messages :: m < top)
              && (previous.value.nextBefore.Some? ==> 0 < previous.value.nextBefore.value < top)
    ensures previous.None? ==> top == 0
  {
  }

  lemma EmptyMeans(previous: Option<Snapshot>, top: nat)
    requires Covered(previous, top) && previous.Some? && Held(previous) == {}
    ensures previous.value.nextBefore.None? && top == 0
  {
    var messages, cursor := previous.value.messages, Cursor(previous.value.nextBefore);
    assert cursor < top ==> cursor in messages;
  }

  lemma LosingUncovered(request: Request, page: Page, length: nat)
    requires Loses(request, page) && request.previous.value.nextBefore.None?
    requires page.nextBefore.value > 0 && page.nextBefore.value < length
    requires forall m :: m in page.messages <==> page.nextBefore.value <= m < length
    ensures !Covers(Merge(request.previous, page, request.older), length)
  {
    assert 0 !in Merge(request.previous, page, request.older).messages;
  }

  lemma KeepingCovers(request: Request, page: Page, top: nat, length: nat)
    requires Covered(request.previous, top) && top <= length && !Loses(request, page)
    requires var hi := Upper(length, Before(request));
             && (forall m :: m in page.messages <==> Cursor(page.nextBefore) <= m < hi)
             && (page.nextBefore.Some? ==> 0 < page.nextBefore.value == hi - PAGE_SIZE)
    ensures Covers(Merge(request.previous, page, request.older), Top(request, top, length))
  {
    var r := Merge(request.previous, page, request.older);
    if !request.older && HistoryLoaded(request.previous) && !Gap(request.previous, page, request.older) &&
       page.nextBefore.Some? {
      assert length - 1 in page.messages;
      var m :| m in page.messages && m in Held(request.previous);
      assert page.nextBefore.value <= m < top;
    }
  }

  // ----- what a merge keeps and forgets

  /** A refresh that meets what is held keeps a loaded history and its cursor. */
  lemma RefreshKeepsHistory(previous: Snapshot, page: Page)
    requires previous.historyLoaded && exists m :: m in page.messages && m in previous.messages
    ensures Merge(Some(previous), page, false)
         == Snapshot(previous.messages + (set m | m in page.messages), previous.nextBefore, true)
  {
  }

  /** A refresh over a history that was not loaded follows the page. */
  lemma RefreshFollowsPage(previous: Option<Snapshot>, page: Page)
    requires previous.Some? ==> !previous.value.historyLoaded
    ensures Merge(previous, page, false).nextBefore == page.nextBefore
    ensures !Merge(previous, page, false).historyLoaded
  {
  }

  /** A refresh that skips past what is held starts the history again at the page. */
  lemma GapForgetsHistory(previous: Snapshot, page: Page)
    requires previous.messages != {} && page.messages != [] && page.nextBefore.Some?
    requires forall m | m in page.messages :: m !in previous.messages
    ensures Merge(Some(previous), page, false)
         == Snapshot(previous.messages + (set m | m in page.messages), page.nextBefore, false)
  {
  }

  /** Load older asks below the cursor, and its reply holds the fifty messages below it and moves the cursor to
      the oldest of them, or takes it away when nothing is left. */
  lemma OlderProgress(request: Request, top: nat, length: nat)
    requires Covered(request.previous, top) && top <= length && request.older
    requires request.previous.Some? && request.previous.value.nextBefore.Some?
    ensures var c := request.previous.value.nextBefore.value;
            var r := Merge(request.previous, PageOf(length, Before(request)), true);
            && r.historyLoaded && r.nextBefore == (if c > 50 then Some(c - 50) else None)
            && (forall m | 0 <= m < c && m + 50 >= c :: m in r.messages)
            && r.messages >= request.previous.value.messages
  {
    hide PageOf, Covers;
    CoversMeans(request.previous, top);
    PageMeans(length, Before(request));
  }

  // ----- every interleaving

  /** A request on its way: not yet answered, answered when its conversation had `length` messages, or
      done with. */
  datatype Flight = Waiting(request: Request) | Answered(request: Request, length: nat) | Settled(request: Request)

  datatype System = System(chat: Chat, logs: map<Key, nat>, flights: seq<Flight>, top: nat)

  datatype Step = Load(key: Key, older: bool) | Abandon | Append(key: Key) | Serve(k: nat) | Deliver(k: nat)

  function Length(logs: map<Key, nat>, key: Key): nat { if key in logs then logs[key] else 0 }

  function Next(s: System, step: Step): System {
    match step
    case Load(key, older) =>
      s.(chat := AfterSend(s.chat, key), flights := s.flights + [Waiting(Sent(s.chat, key, older))],
         top := if s.chat.contextKey == Some(key) then s.top else 0)
    case Abandon => s.(chat := s.chat.(requestId := s.chat.requestId + 1))
    case Append(key) => s.(logs := s.logs[key := Length(s.logs, key) + 1])
    case Serve(k) =>
      if k < |s.flights| && s.flights[k].Waiting? then
        var request := s.flights[k].request;
        s.(flights := s.flights[k := Answered(request, Length(s.logs, request.key))])
      else s
    case Deliver(k) =>
      if k < |s.flights| && s.flights[k].Answered? then
        var f := s.flights[k];
        s.(chat := Commit(s.chat, f.request, PageOf(f.length, Before(f.request))),
           flights := s.flights[k := Settled(f.request)],
           top := if Current(s.chat, f.request) then Top(f.request, s.top, f.length) else s.top)
      else s
  }

  function Execute(s: System, steps: seq<Step>): System
    decreases |steps|
  {
    if steps == [] then s else Execute(Next(s, steps[0]), steps[1..])
  }

  const START: System := System(Chat(None, None, 0), map[], [], 0)

  /** The latest request started from what is held now, and its answer knows at least as much. */
  predicate Latest(s: System, f: Flight) {
    f.request.id == s.chat.requestId && !f.Settled? ==>
      && s.chat.contextKey == Some(f.request.key) && f.request.previous == s.chat.snapshot
      && (f.Answered? ==> s.top <= f.length <= Length(s.logs, f.request.key))
  }

  predicate Fresh(s: System) {
    && (forall k | 0 <= k < |s.flights| :: s.flights[k].request.id <= s.chat.requestId && Latest(s, s.flights[k]))
    && (forall k, l | 0 <= k < l < |s.flights| :: s.flights[k].request.id < s.flights[l].request.id)
    && (s.chat.contextKey.None? ==> s.chat.snapshot.None? && s.top == 0)
    && (s.chat.contextKey.Some? ==> s.top <= Length(s.logs, s.chat.contextKey.value))
  }

  lemma StepFresh(s: System, step: Step)
    requires Fresh(s)
    ensures Fresh(Next(s, step))
  {
    hide Merge, PageOf;
    var t := Next(s, step);
    forall k | 0 <= k < |t.flights|
      ensures t.flights[k].request.id <= t.chat.requestId && Latest(t, t.flights[k])
    {
      if k < |s.flights| { assert Latest(s, s.flights[k]); }
    }
  }

  /** Stale replies change nothing, and while the conversation stays nothing held is dropped: no interleaving
      loses a message that was shown. */
  lemma StepKeepsHeld(s: System, step: Step)
    requires Fresh(s)
    ensures var t := Next(s, step);
            t.chat.contextKey == s.chat.contextKey ==> Held(s.chat.snapshot) <= Held(t.chat.snapshot)
  {
    hide PageOf;
    if step.Deliver? && step.k < |s.flights| { assert Latest(s, s.flights[step.k]); }
  }

  predicate Stays(key: Key, steps: seq<Step>) {
    forall k | 0 <= k < |steps| && steps[k].Load? :: steps[k].key == key
  }

  lemma {:induction false} HeldGrows(s: System, key: Key, steps: seq<Step>)
    requires Fresh(s) && s.chat.contextKey == Some(key) && Stays(key, steps)
    ensures Fresh(Execute(s, steps)) && Held(s.chat.snapshot) <= Held(Execute(s, steps).chat.snapshot)
    decreases |steps|
  {
    if steps != [] {
      StepFresh(s, steps[0]);
      StepKeepsHeld(s, steps[0]);
      assert steps[0].Load? ==> steps[0].key == key;
      HeldGrows(Next(s, steps[0]), key, steps[1..]);
    }
  }

  // ----- coverage in every run

  /** A reply is committed in this step. */
  predicate Commits(s: System, step: Step) {
    step.Deliver? && step.k < |s.flights| && s.flights[step.k].Answered? && Current(s.chat, s.flights[step.k].request)
  }

  function Reply(f: Flight): Page
    requires f.Answered?
  {
    PageOf(f.length, Before(f.request))
  }

  predicate LosesAt(s: System, step: Step) {
    Commits(s, step) && Loses(s.flights[step.k].request, Reply(s.flights[step.k]))
  }

  lemma FreshMeans(s: System, k: nat)
    requires Fresh(s) && Commits(s, Deliver(k))
    ensures s.flights[k].request.previous == s.chat.snapshot && s.top <= s.flights[k].length
  {
    assert Latest(s, s.flights[k]);
  }

  /** A step keeps the cache covered exactly when it is not a losing commit. */
  lemma StepCovered(s: System, step: Step)
    requires Fresh(s) && Covered(s.chat.snapshot, s.top)
    ensures Covered(Next(s, step).chat.snapshot, Next(s, step).top) <==> !LosesAt(s, step)
  {
    hide PageOf, Merge, Covers, Fresh, Loses;
    if Commits(s, step) {
      FreshMeans(s, step.k);
      CommitExact(s.flights[step.k].request, s.top, s.flights[step.k].length);
    }
  }

  /** Covered at the start and after every step. */
  predicate CoveredRun(s: System, steps: seq<Step>)
    decreases |steps|
  {
    Covered(s.chat.snapshot, s.top) && (steps == [] || CoveredRun(Next(s, steps[0]), steps[1..]))
  }

  predicate LosslessRun(s: System, steps: seq<Step>)
    decreases |steps|
  {
    steps == [] || (!LosesAt(s, steps[0]) && LosslessRun(Next(s, steps[0]), steps[1..]))
  }

  lemma {:induction false} RunCovered(s: System, steps: seq<Step>)
    requires Fresh(s) && Covered(s.chat.snapshot, s.top)
    ensures CoveredRun(s, steps) <==> LosslessRun(s, steps)
    decreases |steps|
  {
    hide Next, Covered, Fresh, LosesAt;
    if steps != [] {
      StepFresh(s, steps[0]);
      StepCovered(s, steps[0]);
      if !LosesAt(s, steps[0]) {
        RunCovered(Next(s, steps[0]), steps[1..]);
      } else {
        assert !CoveredRun(Next(s, steps[0]), steps[1..]);
      }
    }
  }

  /** In every run, whatever mix of refreshes, gaps, older pages, dropped replies, appends and changes of
      conversation: everything known of the conversation from the cursor up is held after every step exactly
      when no commit of the run is a losing one. */
  lemma CoveredExact(steps: seq<Step>)
    ensures CoveredRun(START, steps) <==> LosslessRun(START, steps)
  {
    RunCovered(START, steps);
  }

  // ----- what a losing commit comes from

  /** Marked as loaded, and nothing held. */
  predicate Hollow(snapshot: Option<Snapshot>) { HistoryLoaded(snapshot) && Held(snapshot) == {} }

  /** An older page is committed that has no messages. */
  predicate EmptyOlder(s: System, step: Step) {
    Commits(s, step) && s.flights[step.k].request.older && Reply(s.flights[step.k]).messages == []
  }

  predicate FilledRun(s: System, steps: seq<Step>)
    decreases |steps|
  {
    steps == [] || (!EmptyOlder(s, steps[0]) && FilledRun(Next(s, steps[0]), steps[1..]))
  }

  predicate Sound(s: System) { Fresh(s) && Covered(s.chat.snapshot, s.top) && !Hollow(s.chat.snapshot) }

  /** Only an empty older page makes the history hollow, and only a hollow history can lose. */
  lemma StepSound(s: System, step: Step)
    requires Sound(s) && !EmptyOlder(s, step)
    ensures Sound(Next(s, step))
  {
    hide PageOf, Covers, Fresh;
    StepFresh(s, step);
    StepCovered(s, step);
    if Commits(s, step) {
      FreshMeans(s, step.k);
      MergeFills(s.flights[step.k].request, Reply(s.flights[step.k]));
    }
  }

  lemma MergeFills(request: Request, page: Page)
    requires !Hollow(request.previous) && (request.older ==> page.messages != [])
    ensures !Hollow(Some(Merge(request.previous, page, request.older)))
  {
    if request.older { assert page.messages[0] in Merge(request.previous, page, request.older).messages; }
  }

  lemma {:induction false} RunSound(s: System, steps: seq<Step>)
    requires Sound(s) && FilledRun(s, steps)
    ensures Sound(Execute(s, steps)) && CoveredRun(s, steps)
    decreases |steps|
  {
    hide Next, Covered, Fresh, Hollow, EmptyOlder;
    if steps != [] {
      StepSound(s, steps[0]);
      RunSound(Next(s, steps[0]), steps[1..]);
    }
  }

  /** Load older is sent with a cursor: the conversation it is sent for has one. The button shows only that
      the conversation on screen has one, which is another while the selected project has changed and the
      workspace is still being loaded. */
  predicate Offered(s: System, step: Step) {
    step.Load? && step.older ==>
      var c := Prepare(s.chat, step.key);
      c.snapshot.Some? && c.snapshot.value.nextBefore.Some?
  }

  predicate OfferedRun(s: System, steps: seq<Step>)
    decreases |steps|
  {
    steps == [] || (Offered(s, steps[0]) && OfferedRun(Next(s, steps[0]), steps[1..]))
  }

  predicate HasCursor(f: Flight) { f.request.older && !f.Settled? ==> Before(f.request).Some? }

  predicate AllCursors(s: System) { forall k | 0 <= k < |s.flights| :: HasCursor(s.flights[k]) }

  lemma StepCursors(s: System, step: Step)
    requires AllCursors(s) && Offered(s, step)
    ensures AllCursors(Next(s, step))
  {
    hide PageOf, Merge;
    var t := Next(s, step);
    forall k | 0 <= k < |t.flights| ensures HasCursor(t.flights[k]) {
      if k < |s.flights| { assert HasCursor(s.flights[k]); }
    }
  }

  /** A page below a cursor is not empty. */
  lemma CursorFills(s: System, step: Step)
    requires Sound(s) && AllCursors(s)
    ensures !EmptyOlder(s, step)
  {
    hide PageOf, Covers, Fresh;
    if Commits(s, step) && s.flights[step.k].request.older {
      var f := s.flights[step.k];
      FreshMeans(s, step.k);
      assert HasCursor(f);
      CoversMeans(s.chat.snapshot, s.top);
      PageMeans(f.length, Before(f.request));
      assert Upper(f.length, Before(f.request)) - 1 in Reply(f).messages;
    }
  }

  lemma {:induction false} OfferedFills(s: System, steps: seq<Step>)
    requires Sound(s) && AllCursors(s) && OfferedRun(s, steps)
    ensures FilledRun(s, steps)
    decreases |steps|
  {
    hide Next, Sound, AllCursors, EmptyOlder, Offered;
    if steps != [] {
      CursorFills(s, steps[0]);
      StepSound(s, steps[0]);
      StepCursors(s, steps[0]);
      OfferedFills(Next(s, steps[0]), steps[1..]);
    }
  }

  /** With a cursor on every Load older, nothing is ever lost. */
  lemma CacheComplete(steps: seq<Step>)
    requires OfferedRun(START, steps)
    ensures CoveredRun(START, steps)
  {
    OfferedFills(START, steps);
    RunSound(START, steps);
  }

  // ----- the losing run

  lemma Head(s: System, step: Step, rest: seq<Step>)
    ensures Execute(s, [step] + rest) == Execute(Next(s, step), rest)
    ensures FilledRun(s, [step] + rest) <==> !EmptyOlder(s, step) && FilledRun(Next(s, step), rest)
    ensures CoveredRun(s, [step] + rest) ==> CoveredRun(Next(s, step), rest)
  {
    assert ([step] + rest)[1..] == rest;
  }

  lemma NoSteps(s: System)
    ensures Execute(s, []) == s && FilledRun(s, []) && (CoveredRun(s, []) <==> Covered(s.chat.snapshot, s.top))
  {
  }

  /** Over a hollow history, a refresh that finds more than a page leaves older messages unheld and no cursor
      to load them by. */
  lemma EmptyHistoryLoses(s: System, key: Key) returns (steps: seq<Step>)
    requires s.chat.contextKey == Some(key) && s.chat.snapshot == Some(Snapshot({}, None, true)) && s.top == 0
    requires Length(s.logs, key) > PAGE_SIZE
    ensures var n := |s.flights|; steps == [Load(key, false)] + ([Serve(n)] + ([Deliver(n)] + []))
    ensures var t := Execute(s, steps);
            && t.chat.snapshot.Some? && t.chat.snapshot.value.nextBefore.None? && 0 !in t.chat.snapshot.value.messages
            && t.top == Length(s.logs, key) && !Covered(t.chat.snapshot, t.top)
    ensures FilledRun(s, steps) && !CoveredRun(s, steps)
  {
    hide Execute, FilledRun, CoveredRun, PageOf, Merge;
    var n, length := |s.flights|, Length(s.logs, key);
    var request := Sent(s.chat, key, false);
    var page := PageOf(length, None);
    var s1 := Next(s, Load(key, false));
    var s2 := Next(s1, Serve(n));
    var s3 := Next(s2, Deliver(n));
    steps := [Load(key, false)] + ([Serve(n)] + ([Deliver(n)] + []));
    Head(s, Load(key, false), [Serve(n)] + ([Deliver(n)] + []));
    Head(s1, Serve(n), [Deliver(n)] + []);
    Head(s2, Deliver(n), []);
    assert s1.flights[n] == Waiting(request) && s2.flights[n] == Answered(request, length);
    assert s3.chat.snapshot == Some(Merge(request.previous, page, false));
    LosingMerge(length);
    NoSteps(s3);
  }

  lemma LosingMerge(length: nat)
    requires length > PAGE_SIZE
    ensures var r := Merge(Some(Snapshot({}, None, true)), PageOf(length, None), false);
            r.nextBefore.None? && 0 !in r.messages
  {
    PageMeans(length, None);
  }

  /** A hollow history always can lose: let the conversation grow past a page, then refresh. */
  lemma {:induction false} HollowLoses(s: System) returns (steps: seq<Step>)
    requires Fresh(s) && Covered(s.chat.snapshot, s.top) && Hollow(s.chat.snapshot)
    ensures FilledRun(s, steps) && !CoveredRun(s, steps)
    decreases PAGE_SIZE + 1 - (if s.chat.contextKey.Some? then Length(s.logs, s.chat.contextKey.value) else 0)
  {
    hide FilledRun, CoveredRun, Execute;
    var key := s.chat.contextKey.value;
    EmptyMeans(s.chat.snapshot, s.top);
    if Length(s.logs, key) > PAGE_SIZE {
      steps := EmptyHistoryLoses(s, key);
    } else {
      StepFresh(s, Append(key));
      var rest := HollowLoses(Next(s, Append(key)));
      Head(s, Append(key), rest);
      steps := [Append(key)] + rest;
    }
  }

  ghost predicate NeverLoses(s: System) {
    forall steps: seq<Step> | FilledRun(s, steps) :: CoveredRun(s, steps)
  }

  /** From a covered state, nothing is lost in any run without an empty older page exactly when the history is
      not hollow. */
  lemma HollowExact(s: System)
    requires Fresh(s) && Covered(s.chat.snapshot, s.top)
    ensures NeverLoses(s) <==> !Hollow(s.chat.snapshot)
  {
    hide FilledRun, CoveredRun, Fresh, Covered, Hollow;
    if Hollow(s.chat.snapshot) {
      var steps := HollowLoses(s);
    } else {
      forall steps: seq<Step> | FilledRun(s, steps) ensures CoveredRun(s, steps) { RunSound(s, steps); }
    }
  }

  /** A hollow history is reached: Load older is clicked in the conversation on screen, whose cursor is why the
      button is there, when the project selected is already another with an empty conversation. */
  lemma EmptyHistoryReached(s: System, key: Key)
    requires s.chat.contextKey.Some? && s.chat.snapshot.Some? && s.chat.snapshot.value.nextBefore.Some?
    requires s.chat.contextKey != Some(key) && Length(s.logs, key) == 0
    ensures var n := |s.flights|;
            var t := Execute(s, [Load(key, true)] + ([Serve(n)] + ([Deliver(n)] + [])));
            t.chat.contextKey == Some(key) && t.chat.snapshot == Some(Snapshot({}, None, true)) && t.top == 0
  {
    hide Execute, FilledRun, CoveredRun;
    var n := |s.flights|;
    var s1 := Next(s, Load(key, true));
    var s2 := Next(s1, Serve(n));
    var s3 := Next(s2, Deliver(n));
    Head(s, Load(key, true), [Serve(n)] + ([Deliver(n)] + []));
    Head(s1, Serve(n), [Deliver(n)] + []);
    Head(s2, Deliver(n), []);
    assert s2.flights[n] == Answered(Sent(s.chat, key, true), 0);
    assert Held(None) + (set m | m in PageOf(0, None).messages) == {};
    assert s3.chat.snapshot == Some(Merge(None, PageOf(0, None), true));
    NoSteps(s3);
  }
}

/** The cache as the page keeps it: fields that `loadChat` updates before and after it waits. */
module ChatPage {
  import opened Options
  import opened ChatCache

  class ChatView {
    var contextKey: Option<Key>
    var snapshot: Option<Snapshot>
    var requestId: nat

    function View(): Chat
      reads this
    {
      Chat(contextKey, snapshot, requestId)
    }

    constructor ()
      ensures View() == START.chat
    {
      contextKey, snapshot, requestId := None, None, 0;
    }

    method PrepareContext(key: Key)
      modifies this
      ensures View() == Prepare(old(View()), key)
    {
      if contextKey != Some(key) {
        contextKey := Some(key);
        snapshot := None;
        requestId := requestId + 1;
      }
    }

    /** `loadChat` up to its await. */
    method BeginLoad(key: Key, older: bool) returns (request: Request, before: Option<nat>)
      modifies this
      ensures View() == AfterSend(old(View()), key)
      ensures request == Sent(old(View()), key, older) && before == Before(request)
    {
      PrepareContext(key);
      requestId := requestId + 1;
      request := Request(key, requestId, snapshot, older);
      before := None;
      if older && snapshot.Some? { before := snapshot.value.nextBefore; }
    }

    /** `loadChat` from its await on. A reply to a request that is not the latest, or of a conversation
        no longer shown, changes nothing. */
    method FinishLoad(request: Request, page: Page)
      modifies this
      ensures View() == Commit(old(View()), request, page)
    {
      if contextKey != Some(request.key) || requestId != request.id { return; }
      var messages := Held(request.previous);
      var overlap := false;
      for i := 0 to |page.messages|
        invariant overlap <==> exists k | 0 <= k < i :: page.messages[k] in messages
      {
        if page.messages[i] in messages { overlap := true; }
      }
      var gap := !request.older && page.nextBefore.Some? && messages != {} && page.messages != [] && !overlap;
      GapFound(request, page, overlap);
      for i := 0 to |page.messages|
        invariant messages == Held(request.previous) + (set k | 0 <= k < i :: page.messages[k])
      {
        messages := messages + {page.messages[i]};
      }
      assert messages == Held(request.previous) + (set m | m in page.messages);
      var nextBefore := page.nextBefore;
      var loaded := request.previous.Some? && request.previous.value.historyLoaded;
      if !request.older && loaded && !gap { nextBefore := request.previous.value.nextBefore; }
      snapshot := Some(Snapshot(messages, nextBefore, !gap && (request.older || loaded)));
      assert snapshot == Some(Merge(request.previous, page, request.older));
    }
  }

  lemma GapFound(request: Request, page: Page, overlap: bool)
    requires overlap <==> exists k | 0 <= k < |page.messages| :: page.messages[k] in Held(request.previous)
    ensures (!request.older && page.nextBefore.Some? && Held(request.previous) != {} && page.messages != [] && !overlap)
            == Gap(request.previous, page, request.older)
  {
  }
}
