/**
 The tool session both model nodes share: which calls reach a connector, what they use up, and what
 they leave in the cache of the investigation budget.
*/
module ToolBudget {
  import opened Options
  import opened InvestigationLoop

  /** What a tool call returned, and how many usable log records its result carries. */
  datatype Trace = Trace(result: ToolResult, records: nat)

  const REFUSED := Trace(Object(true, []), 0)
  const CACHE_ENTRIES := 16
  const HISTORY_ENTRIES := 20

  datatype Status = PolicyBlocked | Blocked | FromCache | Executed

  /** An entry of `tool_history`. */
  datatype Note = Note(key: string, cost: nat, bytes: nat, status: Status)

  /** The tool entries of the investigation budget. */
  datatype Tools = Tools(maxRemote: int, usedRemote: int, cache: map<string, Trace>, history: seq<Note>)

  datatype Session = Session(loop: Loop, tools: Tools)

  /**
   One call and what its surroundings decide about it: whether policy and scope allow it, the clock,
   its cache key, its cost in remote units, and what the connector would answer.
  */
  datatype ToolCall = ToolCall(
    allowed: bool, deadlinePassed: bool, elapsed: real, key: string, cost: nat, inScope: bool, answer: Trace, size: nat)

  datatype Ran = Ran(session: Session, trace: Trace)

  function Timed(s: Session, c: ToolCall): Session {
    s.(loop := s.loop.(elapsed := AtLeastReal(c.elapsed, 0.0)))
  }

  function Remember(cache: map<string, Trace>, key: string, trace: Trace): map<string, Trace> {
    if |cache| < CACHE_ENTRIES then cache[key := trace] else cache
  }

  /** `_record` */
  function Noted(s: Session, c: ToolCall, cost: nat, bytes: nat, status: Status): Session {
    if |s.tools.history| < HISTORY_ENTRIES
    then s.(tools := s.tools.(history := s.tools.history + [Note(c.key, cost, bytes, status)]))
    else s
  }

  function Refuse(s: Session, c: ToolCall, status: Status): Ran {
    Ran(Noted(s, c, 0, 0, status), REFUSED)
  }

  /** `ToolSession.run` */
  function RunTool(s: Session, c: ToolCall): Ran {
    if !c.allowed then Refuse(s, c, PolicyBlocked)
    else if c.deadlinePassed then Refuse(s, c, Blocked)
    else
      var timed := Timed(s, c);
      var loop, tools := timed.loop, timed.tools;
      if loop.stopReason.Some? && loop.round > 0 then Refuse(timed, c, Blocked)
      else if loop.elapsed >= loop.maxElapsed then Refuse(timed, c, Blocked)
      else if c.key in tools.cache then Ran(Noted(timed, c, 0, 0, FromCache), tools.cache[c.key])
      else if c.cost > tools.maxRemote - tools.usedRemote || !c.inScope then Refuse(timed, c, Blocked)
      else
        var spent := tools.(usedRemote := tools.usedRemote + c.cost);
        if c.size > loop.maxBytes - loop.usedBytes
        then Ran(Noted(Session(loop.(usedBytes := loop.maxBytes), spent), c, c.cost, c.size, Blocked), REFUSED)
        else
          var fetched := Session(loop.(usedBytes := loop.usedBytes + c.size), spent.(cache := Remember(tools.cache, c.key, c.answer)));
          Ran(Noted(fetched, c, c.cost, c.size, Executed), c.answer)
  }

  datatype Finished = Finished(session: Session, traces: seq<Trace>)

  /** The calls of one node, in order. */
  function RunTools(s: Session, calls: seq<ToolCall>): Finished {
    if calls == [] then Finished(s, [])
    else
      var before := RunTools(s, calls[..|calls| - 1]);
      var last := RunTool(before.session, calls[|calls| - 1]);
      Finished(last.session, before.traces + [last.trace])
  }

  /** The session object: its copy of the loop record and of the tool entries. */
  class ToolSession {
    var loop: Loop
    var tools: Tools

    constructor (loop: Loop, tools: Tools)
      ensures this.loop == loop && this.tools == tools
    {
      this.loop, this.tools := loop, tools;
    }

    method Record(c: ToolCall, cost: nat, bytes: nat, status: Status)
      modifies this`tools
      ensures Session(loop, tools) == Noted(old(Session(loop, tools)), c, cost, bytes, status)
    {
      if |tools.history| < HISTORY_ENTRIES {
        tools := tools.(history := tools.history + [Note(c.key, cost, bytes, status)]);
      }
    }

    method Run(c: ToolCall) returns (trace: Trace)
      modifies this
      ensures
        var ran := RunTool(old(Session(loop, tools)), c);
        Session(loop, tools) == ran.session && trace == ran.trace
    {
      if !c.allowed {
        Record(c, 0, 0, PolicyBlocked);
        return REFUSED;
      }
      if c.deadlinePassed {
        Record(c, 0, 0, Blocked);
        return REFUSED;
      }
      loop := loop.(elapsed := AtLeastReal(c.elapsed, 0.0));
      if loop.stopReason.Some? && loop.round > 0 {
        Record(c, 0, 0, Blocked);
        return REFUSED;
      }
      if loop.elapsed >= loop.maxElapsed {
        Record(c, 0, 0, Blocked);
        return REFUSED;
      }
      if c.key in tools.cache {
        trace := tools.cache[c.key];
        Record(c, 0, 0, FromCache);
        return;
      }
      if c.cost > tools.maxRemote - tools.usedRemote || !c.inScope {
        Record(c, 0, 0, Blocked);
        return REFUSED;
      }
      tools := tools.(usedRemote := tools.usedRemote + c.cost);
      if c.size > loop.maxBytes - loop.usedBytes {
        loop := loop.(usedBytes := loop.maxBytes);
        Record(c, c.cost, c.size, Blocked);
        return REFUSED;
      }
      loop := loop.(usedBytes := loop.usedBytes + c.size);
      if |tools.cache| < CACHE_ENTRIES {
        tools := tools.(cache := tools.cache[c.key := c.answer]);
      }
      Record(c, c.cost, c.size, Executed);
      return c.answer;
    }
  }

  /******* What one call does *******/

  /** The call is permitted, in time, and the loop has not stopped after a round. */
  ghost predicate Admitted(s: Session, c: ToolCall) {
    && c.allowed && !c.deadlinePassed && (s.loop.stopReason == None || s.loop.round <= 0)
    && c.elapsed < s.loop.maxElapsed && 0.0 < s.loop.maxElapsed
  }

  /** A connector is asked: the call is admitted, not cached, affordable and in scope. */
  ghost predicate Dispatched(s: Session, c: ToolCall) {
    Admitted(s, c) && c.key !in s.tools.cache && s.tools.usedRemote + c.cost <= s.tools.maxRemote && c.inScope
  }

  ghost predicate Fits(s: Session, c: ToolCall) {
    s.loop.usedBytes + c.size <= s.loop.maxBytes
  }

  /**
   One call: what it returns, what it uses up, and what it leaves.  Remote units are spent exactly when a
   connector is asked, and bytes are counted as delivered, or used up by a result that does not fit.
  */
  lemma CallMeans(s: Session, c: ToolCall)
    ensures
      var after, trace := RunTool(s, c).session, RunTool(s, c).trace;
      && trace == (if Admitted(s, c) && c.key in s.tools.cache then s.tools.cache[c.key]
                   else if Dispatched(s, c) && Fits(s, c) then c.answer else Trace(Object(true, []), 0))
      && after.tools.usedRemote == s.tools.usedRemote + (if Dispatched(s, c) then c.cost else 0)
      && after.loop.usedBytes == (if !Dispatched(s, c) then s.loop.usedBytes
                                  else if Fits(s, c) then s.loop.usedBytes + c.size else s.loop.maxBytes)
      && after.tools.cache == (if Dispatched(s, c) && Fits(s, c) && |s.tools.cache| < 16
                               then s.tools.cache[c.key := c.answer] else s.tools.cache)
      && after.loop.elapsed == (if c.allowed && !c.deadlinePassed then AtLeastReal(c.elapsed, 0.0) else s.loop.elapsed)
      && (if |s.tools.history| >= 20 then after.tools.history == s.tools.history
          else
            && |after.tools.history| == |s.tools.history| + 1 && s.tools.history <= after.tools.history
            && after.tools.history[|s.tools.history|] == Note(
                 c.key, if Dispatched(s, c) then c.cost else 0, if Dispatched(s, c) then c.size else 0,
                 if !c.allowed then PolicyBlocked
                 else if Admitted(s, c) && c.key in s.tools.cache then FromCache
                 else if Dispatched(s, c) && Fits(s, c) then Executed else Blocked))
  {
  }

  /******* What a session keeps *******/

  /** The limits of the loop, its round and its decision; only time and bytes may differ. */
  ghost predicate SameControl(a: Loop, b: Loop) {
    && b.round == a.round && b.maxRounds == a.maxRounds && b.maxBytes == a.maxBytes && b.maxElapsed == a.maxElapsed
    && b.continuing == a.continuing && b.stopReason == a.stopReason
  }

  /** No budget is overdrawn, and cache and history are bounded. */
  ghost predicate Within(s: Session) {
    && Filled(s.loop) && s.loop.usedBytes <= s.loop.maxBytes && s.tools.usedRemote <= s.tools.maxRemote
    && |s.tools.cache| <= CACHE_ENTRIES && |s.tools.history| <= HISTORY_ENTRIES
  }

  lemma {:induction false} SessionKeepsBudgets(s: Session, calls: seq<ToolCall>)
    requires Filled(s.loop)
    ensures
      var after := RunTools(s, calls).session;
      && SameControl(s.loop, after.loop) && Filled(after.loop) && after.tools.maxRemote == s.tools.maxRemote
      && (s.loop.usedBytes <= s.loop.maxBytes ==> s.loop.usedBytes <= after.loop.usedBytes <= after.loop.maxBytes)
      && s.tools.usedRemote <= after.tools.usedRemote && (Within(s) ==> Within(after))
      && s.tools.cache.Keys <= after.tools.cache.Keys && s.tools.history <= after.tools.history
      && |RunTools(s, calls).traces| == |calls|
  {
    if calls != [] {
      SessionKeepsBudgets(s, calls[..|calls| - 1]);
      OneCallKeeps(RunTools(s, calls[..|calls| - 1]).session, calls[|calls| - 1]);
      hide RunTool, Filled;
    }
  }

  lemma OneCallKeeps(s: Session, c: ToolCall)
    requires Filled(s.loop)
    ensures
      var after := RunTool(s, c).session;
      && SameControl(s.loop, after.loop) && Filled(after.loop) && after.tools.maxRemote == s.tools.maxRemote
      && (s.loop.usedBytes <= s.loop.maxBytes ==> s.loop.usedBytes <= after.loop.usedBytes <= after.loop.maxBytes)
      && s.tools.usedRemote <= after.tools.usedRemote && (Within(s) ==> Within(after))
      && s.tools.cache.Keys <= after.tools.cache.Keys && s.tools.history <= after.tools.history
  {
  }

  /** Once the loop has stopped after a round, every call is refused and nothing is used up; only the history notes it. */
  lemma {:induction false} StoppedLoopRefuses(s: Session, calls: seq<ToolCall>)
    requires s.loop.stopReason.Some? && s.loop.round > 0
    ensures
      var done := RunTools(s, calls);
      && done.session.tools == s.tools.(history := done.session.tools.history)
      && s.tools.history <= done.session.tools.history
      && (forall i :: |s.tools.history| <= i < |done.session.tools.history| ==> Refusal(done.session.tools.history[i]))
      && done.session.loop == s.loop.(elapsed := done.session.loop.elapsed)
      && forall t :: t in done.traces ==> t == REFUSED
  {
    if calls != [] { StoppedLoopRefuses(s, calls[..|calls| - 1]); }
  }

  /** A note of a call that used up nothing. */
  predicate Refusal(note: Note) {
    note.cost == 0 && note.bytes == 0 && (note.status.PolicyBlocked? || note.status.Blocked?)
  }

  /** Records are paid for: cached results that carry records were fetched at their least price in bytes. */
  ghost predicate Paid(s: Session, least: nat) {
    forall key :: key in s.tools.cache && s.tools.cache[key].records > 0 ==> least <= s.loop.usedBytes
  }

  /** No answer that carries a usable record is smaller than `least` bytes. */
  ghost predicate Weighty(calls: seq<ToolCall>, least: nat) {
    forall c :: c in calls && c.answer.records > 0 ==> c.size >= least
  }

  lemma {:induction false} SessionPays(s: Session, calls: seq<ToolCall>, least: nat)
    requires Filled(s.loop) && s.loop.usedBytes <= s.loop.maxBytes && Paid(s, least) && Weighty(calls, least)
    ensures
      var done := RunTools(s, calls);
      && Paid(done.session, least)
      && ((exists t :: t in done.traces && t.records > 0) ==> least <= done.session.loop.usedBytes)
  {
    if calls != [] {
      var front, last := calls[..|calls| - 1], calls[|calls| - 1];
      assert last in calls;
      SessionPays(s, front, least);
      SessionKeepsBudgets(s, front);
      OneCallKeeps(RunTools(s, front).session, last);
      OneCallPays(RunTools(s, front).session, last, least);
      hide RunTool, Filled, Within;
    }
  }

  lemma OneCallPays(s: Session, c: ToolCall, least: nat)
    requires Filled(s.loop) && s.loop.usedBytes <= s.loop.maxBytes && Paid(s, least) && (c.answer.records > 0 ==> c.size >= least)
    ensures Paid(RunTool(s, c).session, least)
    ensures RunTool(s, c).trace.records > 0 ==> least <= RunTool(s, c).session.loop.usedBytes
  {
  }
}
