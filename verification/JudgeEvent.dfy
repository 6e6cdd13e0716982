/** Alarms and recoveries per event id (judge/store/judge.go, sendEventIfNeed), and what the
    saved events of every run look like. */
module JudgeEvent {
  import opened Wrappers
  import opened JudgeWindow

  /** The status strings of the original; DDALERT is sent but never saved. */
  datatype Status = PROBLEM | OK | DDALERT | DDALARM | DDOK

  datatype Event = Event(id: string, metric: string, status: Status, currentStep: int, eventTime: int)

  datatype Config = Config(ignoreSelfMetrics: seq<string>, problemSelfMetrics: seq<string>, minInterval: int)

  /** One evaluation of one strategy or expression. */
  datatype Check = Check(id: string, metric: string, eventTime: int, vs: seq<HistoryData>, triggered: bool, now: int)

  datatype Action = Silent | Send(event: Event) | Save(event: Event)

  predicate IsProblem(s: Status) { s == PROBLEM || s == DDALARM }

  predicate IsRecovery(s: Status) { s == OK || s == DDOK }

  function EventOf(c: Check, status: Status, step: int): Event {
    Event(c.id, c.metric, status, step, c.eventTime)
  }

  function ProblemStatus(cfg: Config, c: Check): Status {
    if c.metric in cfg.problemSelfMetrics then DDALARM else PROBLEM
  }

  /** Why an open episode stays silent. */
  predicate HoldsBack(cfg: Config, last: Event, c: Check, maxStep: int)
    requires c.vs != []
  {
    || last.currentStep >= maxStep
    || c.vs[|c.vs| - 1].timestamp <= last.eventTime
    || c.now - last.eventTime < cfg.minInterval
  }

  function Decide(cfg: Config, last: Option<Event>, c: Check, maxStep: int): Action
    requires c.vs != []
  {
    if c.triggered then
      if c.metric in cfg.ignoreSelfMetrics then Send(EventOf(c, DDALERT, 0))
      else if last.None? || IsRecovery(last.value.status) then
        if maxStep == 0 then Silent else Save(EventOf(c, ProblemStatus(cfg, c), 1))
      else if HoldsBack(cfg, last.value, c, maxStep) then Silent
      else Save(EventOf(c, ProblemStatus(cfg, c), last.value.currentStep + 1))
    else if last.Some? && last.value.status == PROBLEM then Save(EventOf(c, OK, 1))
    else if last.Some? && last.value.status == DDALARM then Save(EventOf(c, DDOK, 1))
    else Silent
  }

  function LastOf(lastEvents: map<string, Event>, id: string): Option<Event> {
    if id in lastEvents then Some(lastEvents[id]) else None
  }

  class Judge {
    const cfg: Config
    var lastEvents: map<string, Event>
    /** Everything pushed to the alarm queue, in order. */
    var sent: seq<Event>

    constructor (cfg: Config)
      ensures this.cfg == cfg && lastEvents == map[] && sent == []
    {
      this.cfg := cfg;
      lastEvents, sent := map[], [];
    }

    method SendEvent(event: Event)
      modifies this
      ensures lastEvents == old(lastEvents)[event.id := event] && sent == old(sent) + [event]
    {
      lastEvents := lastEvents[event.id := event];
      sent := sent + [event];
    }

    method Listed(metric: string, list: seq<string>) returns (found: bool)
      ensures found <==> metric in list
    {
      found := false;
      for k := 0 to |list|
        invariant !found && metric !in list[..k]
      {
        if list[k] == metric {
          found := true;
          break;
        }
      }
    }

    /** `historyData` is indexed at its end, so it must not be empty. */
    method SendEventIfNeed(c: Check, maxStep: int)
      requires c.vs != []
      modifies this
      ensures match Decide(cfg, LastOf(old(lastEvents), c.id), c, maxStep)
              case Silent => lastEvents == old(lastEvents) && sent == old(sent)
              case Send(e) => lastEvents == old(lastEvents) && sent == old(sent) + [e]
              case Save(e) => lastEvents == old(lastEvents)[c.id := e] && sent == old(sent) + [e]
    {
      var event := EventOf(c, PROBLEM, 0);
      if c.triggered {
        var bIgnore := Listed(c.metric, cfg.ignoreSelfMetrics);
        if bIgnore {
          sent := sent + [event.(status := DDALERT)];
          return;
        }
        event := event.(status := PROBLEM);
        var bProblemSelf := Listed(c.metric, cfg.problemSelfMetrics);
        if bProblemSelf {
          event := event.(status := DDALARM);
        }
        if c.id !in lastEvents || lastEvents[c.id].status == OK || lastEvents[c.id].status == DDOK {
          event := event.(currentStep := 1);
          if maxStep == 0 {
            return;
          }
          SendEvent(event);
          return;
        }
        var lastEvent := lastEvents[c.id];
        if lastEvent.currentStep >= maxStep {
          return;
        }
        if c.vs[|c.vs| - 1].timestamp <= lastEvent.eventTime {
          return;
        }
        if c.now - lastEvent.eventTime < cfg.minInterval {
          return;
        }
        event := event.(currentStep := lastEvent.currentStep + 1);
        SendEvent(event);
      } else if c.id in lastEvents {
        var lastEvent := lastEvents[c.id];
        if lastEvent.status == PROBLEM {
          SendEvent(event.(status := OK, currentStep := 1));
        } else if lastEvent.status == DDALARM {
          SendEvent(event.(status := DDOK, currentStep := 1));
        }
      }
    }
  }

  // ----- Runs -----

  /** A saved event together with the evidence it rests on. */
  datatype Saved = Saved(event: Event, vs: seq<HistoryData>, now: int)

  datatype State = State(last: map<string, Event>, saved: seq<Saved>, sent: seq<Event>)

  ghost predicate DescendingPoints(vs: seq<HistoryData>) {
    forall i, j :: 0 <= i < j < |vs| ==> vs[i].timestamp > vs[j].timestamp
  }

  /** What the window guarantees about every check: some points, newest first, and the event
      time is that of the newest one. */
  ghost predicate Grounded(c: Check) {
    c.vs != [] && DescendingPoints(c.vs) && c.eventTime == c.vs[0].timestamp
  }

  type GroundedCheck = c: Check | Grounded(c) ghost witness Check("", "", 0, [HistoryData(0, 0.0)], false, 0)

  ghost function Next(cfg: Config, st: State, c: GroundedCheck, maxStep: string -> int): State {
    match Decide(cfg, LastOf(st.last, c.id), c, maxStep(c.id))
    case Silent => st
    case Send(e) => st.(sent := st.sent + [e])
    case Save(e) => State(st.last[c.id := e], st.saved + [Saved(e, c.vs, c.now)], st.sent + [e])
  }

  /** All checks of all event ids, in the order in which they happen. */
  ghost function Run(cfg: Config, checks: seq<GroundedCheck>, maxStep: string -> int): State {
    if checks == [] then State(map[], [], [])
    else Next(cfg, Run(cfg, checks[..|checks| - 1], maxStep), checks[|checks| - 1], maxStep)
  }

  /** The saved events of one id. */
  function HistoryOf(saved: seq<Saved>, id: string): seq<Saved> {
    if saved == [] then []
    else
      var front := HistoryOf(saved[..|saved| - 1], id);
      if saved[|saved| - 1].event.id == id then front + [saved[|saved| - 1]] else front
  }

  lemma HistorySnoc(saved: seq<Saved>, x: Saved, id: string)
    ensures HistoryOf(saved + [x], id) == HistoryOf(saved, id) + if x.event.id == id then [x] else []
  {
    assert (saved + [x])[..|saved + [x]| - 1] == saved;
  }

  ghost predicate NewerThan(later: seq<HistoryData>, earlier: seq<HistoryData>) {
    forall p, q :: p in earlier && q in later ==> p.timestamp < q.timestamp
  }

  function MaxSteps(maxStep: int): int { if maxStep > 1 then maxStep else 1 }

  /** The recovery that closes a problem of the given kind. */
  function Closing(problem: Status): Status { if problem == PROBLEM then OK else DDOK }

  /** Event `i` follows its predecessor as an episode demands. */
  ghost predicate WellPlaced(h: seq<Saved>, i: int, maxStep: int, minInterval: int)
    requires 0 <= i < |h|
  {
    var e := h[i].event;
    && (IsProblem(e.status) || IsRecovery(e.status))
    && (IsRecovery(e.status) ==>
          i > 0 && IsProblem(h[i - 1].event.status) && e.status == Closing(h[i - 1].event.status) && e.currentStep == 1)
    && (IsProblem(e.status) ==> maxStep != 0 && 1 <= e.currentStep <= MaxSteps(maxStep))
    && (IsProblem(e.status) && (i == 0 || IsRecovery(h[i - 1].event.status)) ==> e.currentStep == 1)
    && (IsProblem(e.status) && i > 0 && IsProblem(h[i - 1].event.status) ==>
          && e.currentStep == h[i - 1].event.currentStep + 1
          && NewerThan(h[i].vs, h[i - 1].vs)
          && h[i].now - h[i - 1].event.eventTime >= minInterval)
  }

  ghost predicate Episodes(h: seq<Saved>, maxStep: int, minInterval: int) {
    forall i :: 0 <= i < |h| ==> WellPlaced(h, i, maxStep, minInterval)
  }

  ghost predicate Tracks(st: State, id: string) {
    var h := HistoryOf(st.saved, id);
    && LastOf(st.last, id) == (if h == [] then None else Some(h[|h| - 1].event))
    && (h != [] ==> Evidence(h[|h| - 1]))
  }

  ghost predicate Evidence(s: Saved) {
    s.vs != [] && DescendingPoints(s.vs) && s.event.eventTime == s.vs[0].timestamp
  }

  /** A window whose oldest point is newer than the last event shares no point with it. */
  lemma WindowsDisjoint(earlier: Saved, later: seq<HistoryData>)
    requires Evidence(earlier) && later != [] && DescendingPoints(later)
    requires later[|later| - 1].timestamp > earlier.event.eventTime
    ensures NewerThan(later, earlier.vs)
  {
  }

  lemma EpisodesSnoc(h: seq<Saved>, x: Saved, maxStep: int, minInterval: int)
    requires Episodes(h, maxStep, minInterval) && WellPlaced(h + [x], |h|, maxStep, minInterval)
    ensures Episodes(h + [x], maxStep, minInterval)
  {
    hide NewerThan;
    var h' := h + [x];
    forall i | 0 <= i < |h'| ensures WellPlaced(h', i, maxStep, minInterval) {
      if i < |h| {
        assert WellPlaced(h, i, maxStep, minInterval);
        assert h'[i] == h[i] && (i > 0 ==> h'[i - 1] == h[i - 1]);
      }
    }
  }

  lemma SavedIsWellPlaced(cfg: Config, h: seq<Saved>, c: GroundedCheck, maxStep: int)
    requires h != [] ==> Evidence(h[|h| - 1])
    requires Episodes(h, maxStep, cfg.minInterval)
    requires var last := if h == [] then None else Some(h[|h| - 1].event); Decide(cfg, last, c, maxStep).Save?
    ensures var last := if h == [] then None else Some(h[|h| - 1].event);
            var x := Saved(Decide(cfg, last, c, maxStep).event, c.vs, c.now);
            WellPlaced(h + [x], |h|, maxStep, cfg.minInterval) && Evidence(x)
  {
    hide NewerThan;
    if h != [] {
      var prev := h[|h| - 1];
      assert WellPlaced(h, |h| - 1, maxStep, cfg.minInterval);
      if c.vs[|c.vs| - 1].timestamp > prev.event.eventTime {
        WindowsDisjoint(prev, c.vs);
      }
    }
  }

  lemma NextKeepsEpisodes(cfg: Config, st: State, c: GroundedCheck, maxStep: string -> int, id: string)
    requires Tracks(st, id) && Episodes(HistoryOf(st.saved, id), maxStep(id), cfg.minInterval)
    ensures var st' := Next(cfg, st, c, maxStep);
            Tracks(st', id) && Episodes(HistoryOf(st'.saved, id), maxStep(id), cfg.minInterval)
  {
    hide Episodes, Evidence, Decide, HistoryOf, WellPlaced;
    var h := HistoryOf(st.saved, id);
    var action := Decide(cfg, LastOf(st.last, c.id), c, maxStep(c.id));
    if action.Save? {
      DecideKeepsId(cfg, LastOf(st.last, c.id), c, maxStep(c.id));
      var x := Saved(action.event, c.vs, c.now);
      HistorySnoc(st.saved, x, id);
      if c.id == id {
        SavedIsWellPlaced(cfg, h, c, maxStep(id));
        EpisodesSnoc(h, x, maxStep(id), cfg.minInterval);
      } else {
        assert h + [] == h;
      }
    }
  }

  /** For every event id and every run: the saved events form episodes, and the last one is
      what the next check is compared with. */
  lemma {:induction false} RunFormsEpisodes(cfg: Config, checks: seq<GroundedCheck>, maxStep: string -> int, id: string)
    ensures var st := Run(cfg, checks, maxStep);
            Tracks(st, id) && Episodes(HistoryOf(st.saved, id), maxStep(id), cfg.minInterval)
  {
    hide Episodes, Next;
    if checks == [] {
      NoEpisodes(maxStep(id), cfg.minInterval);
    } else {
      RunFormsEpisodes(cfg, checks[..|checks| - 1], maxStep, id);
      NextKeepsEpisodes(cfg, Run(cfg, checks[..|checks| - 1], maxStep), checks[|checks| - 1], maxStep, id);
    }
  }

  lemma NoEpisodes(maxStep: int, minInterval: int)
    ensures Episodes([], maxStep, minInterval)
  {
  }

  lemma DecideKeepsId(cfg: Config, last: Option<Event>, c: Check, maxStep: int)
    requires c.vs != []
    ensures Decide(cfg, last, c, maxStep).Save? ==> Decide(cfg, last, c, maxStep).event.id == c.id
  {
  }

  // ----- When an alarm is raised -----

  /** The event is saved for its id, for no other, and sent. */
  ghost predicate Adds(st: State, st': State, x: Saved) {
    && (forall id :: HistoryOf(st'.saved, id) == HistoryOf(st.saved, id) + if id == x.event.id then [x] else [])
    && st'.sent == st.sent + [x.event]
  }

  /** Nothing is saved, and just `events` are sent. */
  ghost predicate AddsNothing(st: State, st': State, events: seq<Event>) {
    && (forall id :: HistoryOf(st'.saved, id) == HistoryOf(st.saved, id))
    && st'.sent == st.sent + events
  }

  lemma SaveAdds(st: State, st': State, x: Saved)
    requires st'.saved == st.saved + [x] && st'.sent == st.sent + [x.event]
    ensures Adds(st, st', x)
  {
    forall id {
      HistorySnoc(st.saved, x, id);
    }
  }

  lemma NextAdds(cfg: Config, st: State, c: GroundedCheck, maxStep: string -> int)
    ensures var st' := Next(cfg, st, c, maxStep);
            match Decide(cfg, LastOf(st.last, c.id), c, maxStep(c.id))
            case Silent => AddsNothing(st, st', [])
            case Send(e) => AddsNothing(st, st', [e])
            case Save(e) => Adds(st, st', Saved(e, c.vs, c.now))
  {
    hide Decide, HistoryOf, Adds;
    var st' := Next(cfg, st, c, maxStep);
    var action := Decide(cfg, LastOf(st.last, c.id), c, maxStep(c.id));
    if action.Save? {
      SaveAdds(st, st', Saved(action.event, c.vs, c.now));
    } else {
      assert st.sent + [] == st.sent;
    }
  }

  lemma RunNext(cfg: Config, checks: seq<GroundedCheck>, c: GroundedCheck, maxStep: string -> int)
    ensures Run(cfg, checks + [c], maxStep) == Next(cfg, Run(cfg, checks, maxStep), c, maxStep)
  {
    var all := checks + [c];
    assert all[..|all| - 1] == checks;
  }

  /** A triggered check after any run. On an ignored metric it is only sent. After nothing, or after a
      recovery, it raises problem 1, unless the limit is zero. After problem k it raises problem k + 1
      if and only if k is below the limit, all its points are newer than that problem, and the
      interval has passed. */
  lemma TriggeredRaises(cfg: Config, checks: seq<GroundedCheck>, c: GroundedCheck, maxStep: string -> int)
    requires c.triggered
    ensures var st := Run(cfg, checks, maxStep);
            var st' := Run(cfg, checks + [c], maxStep);
            var h := HistoryOf(st.saved, c.id);
            var problem := if c.metric in cfg.problemSelfMetrics then DDALARM else PROBLEM;
            if c.metric in cfg.ignoreSelfMetrics then
              AddsNothing(st, st', [Event(c.id, c.metric, DDALERT, 0, c.eventTime)])
            else if h == [] || h[|h| - 1].event.status in {OK, DDOK} then
              if maxStep(c.id) == 0 then AddsNothing(st, st', [])
              else Adds(st, st', Saved(Event(c.id, c.metric, problem, 1, c.eventTime), c.vs, c.now))
            else
              var last := h[|h| - 1].event;
              && last.status in {PROBLEM, DDALARM}
              && if last.currentStep < maxStep(c.id)
                    && (forall p :: p in c.vs ==> p.timestamp > last.eventTime)
                    && c.now - last.eventTime >= cfg.minInterval
                 then
                   var next := Event(c.id, c.metric, problem, last.currentStep + 1, c.eventTime);
                   Adds(st, st', Saved(next, c.vs, c.now))
                 else AddsNothing(st, st', [])
  {
    hide Run, Next, Adds, AddsNothing, HistoryOf, Episodes;
    var st := Run(cfg, checks, maxStep);
    RunNext(cfg, checks, c, maxStep);
    NextAdds(cfg, st, c, maxStep);
    RunFormsEpisodes(cfg, checks, maxStep, c.id);
    LastIsPlaced(HistoryOf(st.saved, c.id), maxStep(c.id), cfg.minInterval);
    var h := HistoryOf(st.saved, c.id);
    OldestDecides(c, if h == [] then 0 else h[|h| - 1].event.eventTime);
  }

  lemma LastIsPlaced(h: seq<Saved>, maxStep: int, minInterval: int)
    requires Episodes(h, maxStep, minInterval)
    ensures h != [] ==> h[|h| - 1].event.status in {PROBLEM, DDALARM, OK, DDOK}
  {
    if h != [] {
      assert WellPlaced(h, |h| - 1, maxStep, minInterval);
    }
  }

  /** The oldest point is newer than a time exactly when all of them are. */
  lemma OldestDecides(c: GroundedCheck, t: int)
    ensures (forall p :: p in c.vs ==> p.timestamp > t) <==> c.vs[|c.vs| - 1].timestamp > t
  {
    assert c.vs[|c.vs| - 1] in c.vs;
  }

  /** Any other check closes a problem by its recovery, and does nothing else. */
  lemma UntriggeredCloses(cfg: Config, checks: seq<GroundedCheck>, c: GroundedCheck, maxStep: string -> int)
    requires !c.triggered
    ensures var st := Run(cfg, checks, maxStep);
            var st' := Run(cfg, checks + [c], maxStep);
            var h := HistoryOf(st.saved, c.id);
            if h != [] && h[|h| - 1].event.status == PROBLEM then
              Adds(st, st', Saved(Event(c.id, c.metric, OK, 1, c.eventTime), c.vs, c.now))
            else if h != [] && h[|h| - 1].event.status == DDALARM then
              Adds(st, st', Saved(Event(c.id, c.metric, DDOK, 1, c.eventTime), c.vs, c.now))
            else
              AddsNothing(st, st', [])
  {
    hide Run, Next, Adds, AddsNothing, HistoryOf, Episodes;
    RunNext(cfg, checks, c, maxStep);
    NextAdds(cfg, Run(cfg, checks, maxStep), c, maxStep);
    RunFormsEpisodes(cfg, checks, maxStep, c.id);
  }

  // ----- What episodes mean -----

  /** How many problem events in a row end at `i`. */
  function ProblemsUpTo(h: seq<Saved>, i: int): nat
    requires -1 <= i < |h|
    decreases i + 1
  {
    if i < 0 || !IsProblem(h[i].event.status) then 0 else ProblemsUpTo(h, i - 1) + 1
  }

  /** Problem events are numbered 1, 2, ... within their episode, and never beyond the limit. */
  lemma {:induction false} EpisodesAreNumbered(h: seq<Saved>, i: int, maxStep: int, minInterval: int)
    requires Episodes(h, maxStep, minInterval) && 0 <= i < |h| && IsProblem(h[i].event.status)
    ensures h[i].event.currentStep == ProblemsUpTo(h, i) <= MaxSteps(maxStep)
    decreases i
  {
    assert WellPlaced(h, i, maxStep, minInterval);
    if i > 0 && IsProblem(h[i - 1].event.status) {
      EpisodesAreNumbered(h, i - 1, maxStep, minInterval);
    } else if i > 0 {
      assert WellPlaced(h, i - 1, maxStep, minInterval);
    }
  }

  /** Any two problem events of one episode rest on disjoint windows, in order. */
  lemma {:induction false} EpisodeWindowsDisjoint(h: seq<Saved>, i: int, j: int, maxStep: int, minInterval: int)
    requires Episodes(h, maxStep, minInterval) && 0 <= i < j < |h|
    requires forall k :: i <= k <= j ==> IsProblem(h[k].event.status) && h[k].vs != []
    ensures NewerThan(h[j].vs, h[i].vs)
    decreases j - i
  {
    assert WellPlaced(h, j, maxStep, minInterval);
    if i < j - 1 {
      EpisodeWindowsDisjoint(h, i, j - 1, maxStep, minInterval);
      assert h[j - 1].vs[0] in h[j - 1].vs;
    }
  }
}
