/** The signal projection: versions asked for and published, one refresh worker, and one
    retry per cycle.

    A step is one section under the projection's mutex. Workers are listed, so that there
    is never more than one is a theorem. The hash of the opportunities is taken to be
    injective: a version is the set of opportunities itself, each with the activity and
    direction that the hash covers.
 */
module SignalProjection {
  import opened Basics

  const RETRY_DELAY := 60_000

  type Opportunities = map<string, nat>

  /** `loaded`: funding rows have been read. */
  datatype Source = Source(revision: nat, loaded: bool)

  /** Signals computed for `version` from the funding rows of `revision`. */
  datatype Publication = Publication(version: Option<Opportunities>, revision: nat)

  /** A worker is before its next section, or out building. */
  datatype Worker =
    | AtTop
    | Building(target: nat, version: Option<Opportunities>, check: bool, cached: Source, published: Publication)

  datatype State = State(
    source: Source,
    publication: Publication,
    desiredVersion: nat,
    publishedVersion: nat,
    workerRunning: bool,
    checkQueued: bool,
    checkFailed: bool,
    buildFailed: bool,
    retryScheduled: bool,
    retryAttempted: bool,
    nextCheck: int,
    known: Opportunities,
    desired: Option<Opportunities>,
    workers: seq<Worker>,
    timers: nat,
    retries: nat)

  const INITIAL := State(
    Source(0, false), Publication(None, 0), 0, 0, false, false, false, false, false, false, 0, map[], None, [], 0, 0)

  /** The database's answer to a build: an error, or the revision it now has. */
  datatype Reply = Error | Revision(revision: nat)

  // ----- building

  datatype Build = Build(source: Source, publication: Publication, sourceChanged: bool)

  function Built(w: Worker, revision: nat): Build
    requires w.Building?
  {
    var current := if w.check then revision else w.cached.revision;
    var changed := current != w.cached.revision || !w.cached.loaded;
    Build(Source(current, true),
          if changed || w.version != w.published.version then Publication(w.version, current) else w.published,
          changed)
  }

  // ----- the sections

  function Needed(s: State): bool { s.desiredVersion > s.publishedVersion || s.checkQueued }

  function StartIf(s: State, start: bool): State {
    if start then s.(workerRunning := true, workers := s.workers + [AtTop]) else s
  }

  /** Opportunities only accumulate; their version is wanted from now on. */
  function Updated(s: State, opportunities: Opportunities): State {
    s.(known := s.known + opportunities, desired := Some(s.known + opportunities))
  }

  predicate NewCycle(s: State, opportunities: Opportunities, now: int) {
    s.desired != Updated(s, opportunities).desired || now >= Updated(s, opportunities).nextCheck
  }

  /** The request is on record; a new cycle may use a retry again. */
  function Asked(s: State, opportunities: Opportunities, now: int): State {
    var u := Updated(s, opportunities);
    var due := now >= u.nextCheck;
    var newCycle := NewCycle(s, opportunities, now);
    u.(desiredVersion := if s.desired != u.desired then u.desiredVersion + 1 else u.desiredVersion,
       checkQueued := u.checkQueued || !u.source.loaded || due,
       retryAttempted := if newCycle then false else u.retryAttempted,
       retries := if newCycle then 0 else u.retries)
  }

  function Request(s: State, opportunities: Opportunities, now: int): State {
    if opportunities == map[] then s
    else
      var asked := Asked(s, opportunities, now);
      StartIf(asked, Needed(asked) && !asked.workerRunning && !asked.retryAttempted
                     && (!asked.retryScheduled || NewCycle(s, opportunities, now)))
  }

  function Without(workers: seq<Worker>, i: nat): seq<Worker>
    requires i < |workers|
  {
    workers[..i] + workers[i + 1..]
  }

  /** A worker takes on what is asked for, or stops. */
  function Begin(s: State, i: nat, now: int): State
    requires i < |s.workers|
  {
    if s.desiredVersion <= s.publishedVersion && !s.checkQueued then
      s.(workerRunning := false, workers := Without(s.workers, i))
    else
      s.(checkQueued := false,
         nextCheck := if s.checkQueued then now + RETRY_DELAY else s.nextCheck,
         workers := s.workers[i := Building(s.desiredVersion, s.desired, s.checkQueued, s.source, s.publication)])
  }

  /** The worker goes on, or stops when nothing further is asked for. */
  function Continue(s: State, i: nat, more: bool): State
    requires i < |s.workers|
  {
    if more then s.(workers := s.workers[i := AtTop])
    else s.(workerRunning := false, workers := Without(s.workers, i))
  }

  function Fail(s: State, i: nat): State
    requires i < |s.workers| && s.workers[i].Building?
  {
    var w := s.workers[i];
    var failed := s.(buildFailed := true, checkFailed := s.checkFailed || w.check);
    var more := failed.desiredVersion > w.target || failed.checkQueued;
    var retry := !more && !failed.retryScheduled && !failed.retryAttempted
                 && (failed.desiredVersion > failed.publishedVersion || failed.checkFailed);
    Continue(if retry then failed.(retryScheduled := true, timers := failed.timers + 1) else failed, i, more)
  }

  function Loaded(s: State, w: Worker, build: Build, now: int): State
    requires w.Building?
  {
    s.(source := build.source,
       checkFailed := if w.check then false else s.checkFailed,
       nextCheck := if w.check then now + RETRY_DELAY else s.nextCheck,
       desiredVersion := if build.sourceChanged then s.desiredVersion + 1 else s.desiredVersion)
  }

  /** Publishes the build if it is for the present opportunities. */
  function Published(s: State, w: Worker, build: Build): State
    requires w.Building?
  {
    if w.version == s.desired && build.publication.version == w.version
    then s.(publication := build.publication, publishedVersion := s.desiredVersion,
            buildFailed := false, retryAttempted := false, retries := 0)
    else s
  }

  function Publish(s: State, i: nat, revision: nat, now: int): State
    requires i < |s.workers| && s.workers[i].Building?
  {
    var w := s.workers[i];
    var build := Built(w, revision);
    var published := Published(Loaded(s, w, build, now), w, build);
    Continue(published, i, Needed(published))
  }

  function Retry(s: State): State
    requires s.timers > 0
  {
    var fired := s.(timers := s.timers - 1, retryScheduled := false, retryAttempted := true, retries := s.retries + 1,
                    checkQueued := s.checkQueued || s.checkFailed);
    StartIf(fired, Needed(fired) && !fired.workerRunning)
  }

  datatype Step =
    | Ask(opportunities: Opportunities, now: int)
    | Top(worker: nat, now: int)
    | Answer(worker: nat, reply: Reply, now: int)
    | Fire

  predicate Enabled(s: State, step: Step) {
    match step
    case Ask(_, _) => true
    case Top(i, _) => i < |s.workers| && s.workers[i].AtTop?
    case Answer(i, _, _) => i < |s.workers| && s.workers[i].Building?
    case Fire => s.timers > 0
  }

  function Next(s: State, step: Step): State
    requires Enabled(s, step)
  {
    match step
    case Ask(opportunities, now) => Request(s, opportunities, now)
    case Top(i, now) => Begin(s, i, now)
    case Answer(i, reply, now) => if reply.Error? then Fail(s, i) else Publish(s, i, reply.revision, now)
    case Fire => Retry(s)
  }

  // ----- the invariant

  /** One worker at most, and the flag tells. */
  predicate OneWorker(s: State) {
    |s.workers| == if s.workerRunning then 1 else 0
  }

  /** One retry outstanding at most, one per cycle, and the flags tell. */
  predicate OneRetry(s: State) {
    && s.timers == (if s.retryScheduled then 1 else 0)
    && s.retries == (if s.retryAttempted then 1 else 0)
    && !(s.retryScheduled && s.retryAttempted)
    && (!s.source.loaded && (s.retryScheduled || s.retryAttempted) ==> s.buildFailed)
  }

  /** Published versions are ones asked for, and the last one is for the present opportunities. */
  predicate VersionsOk(s: State) {
    && s.publishedVersion <= s.desiredVersion
    && (s.publishedVersion == s.desiredVersion ==> s.publication.version == s.desired)
    && (forall w :: w in s.workers && w.Building? ==>
          w.target <= s.desiredVersion && w.cached == s.source && w.published == s.publication)
    && (s.workers != [] || s.timers > 0 ==> s.desired.Some?)
    && (s.publication.version.Some? ==> s.source.loaded)
  }

  /** Without a worker nothing is left to do, unless the last build failed. */
  predicate NothingForgotten(s: State) {
    s.workerRunning || !Needed(s) || s.buildFailed
  }

  predicate Inv(s: State) {
    OneWorker(s) && OneRetry(s) && VersionsOk(s) && NothingForgotten(s)
  }

  lemma AskKeepsInv(s: State, opportunities: Opportunities, now: int)
    requires Inv(s)
    ensures Inv(Request(s, opportunities, now))
  {
    if opportunities != map[] && s.desired == Some(s.known + opportunities) {
      assert Request(s, opportunities, now).desired == s.desired;
    }
  }

  lemma LastWorkerLeaves(workers: seq<Worker>)
    requires |workers| == 1
    ensures Without(workers, 0) == [] && workers[0 := AtTop] == [AtTop]
  {
  }

  lemma BeginKeepsInv(s: State, i: nat, now: int)
    requires Inv(s) && i < |s.workers|
    ensures Inv(Begin(s, i, now))
  {
    assert i == 0 && |s.workers| == 1;
  }

  lemma FailKeepsInv(s: State, i: nat)
    requires Inv(s) && i < |s.workers| && s.workers[i].Building?
    ensures Inv(Fail(s, i))
  {
    assert i == 0 && |s.workers| == 1;
  }

  lemma PublishKeepsInv(s: State, i: nat, revision: nat, now: int)
    requires Inv(s) && i < |s.workers| && s.workers[i].Building?
    ensures Inv(Publish(s, i, revision, now))
  {
    hide Without;
    assert i == 0 && |s.workers| == 1;
    assert s.workers[0] in s.workers;
    LastWorkerLeaves(s.workers);
    var t := Publish(s, i, revision, now);
    assert t.workers == if t.workerRunning then [AtTop] else [];
  }

  lemma StepKeepsInv(s: State, step: Step)
    requires Inv(s) && Enabled(s, step)
    ensures Inv(Next(s, step))
  {
    match step
    case Ask(opportunities, now) => AskKeepsInv(s, opportunities, now);
    case Top(i, now) => BeginKeepsInv(s, i, now);
    case Answer(i, reply, now) =>
      if reply.Error? {
        FailKeepsInv(s, i);
      } else {
        PublishKeepsInv(s, i, reply.revision, now);
      }
    case Fire =>
  }

  function Run(s: State, steps: seq<Step>): State
    requires Possible(s, steps)
    decreases |steps|
  {
    if steps == [] then s else Run(Next(s, steps[0]), steps[1..])
  }

  predicate Possible(s: State, steps: seq<Step>)
    decreases |steps|
  {
    steps == [] || (Enabled(s, steps[0]) && Possible(Next(s, steps[0]), steps[1..]))
  }

  lemma {:induction false} RunKeepsInv(s: State, steps: seq<Step>)
    requires Inv(s) && Possible(s, steps)
    ensures Inv(Run(s, steps))
    decreases |steps|
  {
    hide Inv;
    if steps != [] {
      StepKeepsInv(s, steps[0]);
      RunKeepsInv(Next(s, steps[0]), steps[1..]);
    }
  }

  // ----- what it means for readers

  datatype Status = Ready | Stale | Refreshing | Loading | Unavailable

  /** What a response says about an opportunity, by whether a published signal covers it. */
  function StatusOf(s: State, found: bool): Status {
    if found then
      if s.checkFailed || s.buildFailed then Stale
      else if s.publishedVersion < s.desiredVersion then Refreshing
      else Ready
    else if s.buildFailed || s.checkFailed || s.publishedVersion == s.desiredVersion then Unavailable
    else Loading
  }

  /** A response is ready exactly when its signal is covered, nothing failed, and the
      publication is for the present opportunities at the version asked for; it promises
      more to come, refreshing or loading, only while a worker runs. */
  lemma StatusIsTrue(s: State, found: bool)
    requires Inv(s)
    ensures StatusOf(s, found) == Ready <==>
              && found && !s.checkFailed && !s.buildFailed && s.publishedVersion == s.desiredVersion
              && s.publication.version == s.desired
    ensures StatusOf(s, found).Refreshing? || StatusOf(s, found).Loading? ==> s.workerRunning && |s.workers| == 1
    ensures StatusOf(s, found) == Stale <==> found && (s.checkFailed || s.buildFailed)
    ensures StatusOf(s, found).Refreshing? || StatusOf(s, found).Ready? ==> found
    ensures StatusOf(s, found) == Unavailable <==>
              !found && (s.checkFailed || s.buildFailed || s.publishedVersion == s.desiredVersion)
  {
  }

  /** A failed build is not the end: the first request after the next check time starts a worker. */
  lemma DueRequestStartsWorker(s: State, opportunities: Opportunities, now: int)
    requires Inv(s) && opportunities != map[] && now >= s.nextCheck
    ensures Request(s, opportunities, now).workerRunning && |Request(s, opportunities, now).workers| == 1
  {
    AskKeepsInv(s, opportunities, now);
  }

  /** A worker left alone whose build is answered publishes what is asked for in one round. */
  lemma OneRoundPublishes(s: State, revision: nat, now: int)
    requires Inv(s) && s.workers == [AtTop] && Needed(s)
    ensures var first := Publish(Begin(s, 0, now), 0, revision, now);
            && first.publishedVersion == first.desiredVersion && first.publication.version == s.desired
            && !first.checkQueued && !first.buildFailed && !first.workerRunning
  {
    var b := Begin(s, 0, now);
    assert b.workers[0] in b.workers;
  }

  /** A request that finds everything published reads signals for exactly its opportunities and
      all known before. */
  lemma PublishedIsCurrent(steps: seq<Step>)
    requires Possible(INITIAL, steps)
    ensures var s := Run(INITIAL, steps);
            && (s.publishedVersion == s.desiredVersion ==> s.publication.version == s.desired)
            && |s.workers| <= 1 && s.timers <= 1 && s.retries <= 1
            && (s.workers == [] ==> (s.publishedVersion == s.desiredVersion && !s.checkQueued) || s.buildFailed)
  {
    RunKeepsInv(INITIAL, steps);
  }

  // ----- what each section does

  /** A request adds its opportunities to those known. A change asks for a new version, a source
      never loaded or due is checked, and either change or due time allows a retry again. A worker
      starts exactly when something is wanted, none runs, and no retry was made or waits in this
      cycle. An empty request changes nothing. */
  lemma RequestedExactly(s: State, opportunities: Opportunities, now: int)
    ensures opportunities == map[] ==> Request(s, opportunities, now) == s
    ensures opportunities != map[] ==>
              var t := Request(s, opportunities, now);
              var wanted := s.known + opportunities;
              var changed, due := s.desired != Some(wanted), s.nextCheck <= now;
              && t.known == wanted && t.desired == Some(wanted)
              && t.desiredVersion - s.desiredVersion == (if changed then 1 else 0)
              && (t.checkQueued <==> s.checkQueued || !s.source.loaded || due)
              && (t.retryAttempted <==> s.retryAttempted && !changed && !due)
              && t.workers == s.workers + (if t.workerRunning && !s.workerRunning then [AtTop] else [])
              && (t.workerRunning <==>
                    || s.workerRunning
                    || ((t.desiredVersion > s.publishedVersion || t.checkQueued) && !t.retryAttempted
                        && (s.retryScheduled ==> changed || due)))
              && t == s.(known := t.known, desired := t.desired, desiredVersion := t.desiredVersion,
                         checkQueued := t.checkQueued, retryAttempted := t.retryAttempted, retries := t.retries,
                         workerRunning := t.workerRunning, workers := t.workers)
  {
  }

  /** A worker stops exactly when nothing is wanted; otherwise it goes out with what is wanted now,
      taking the queued check with it, which is then due again a minute later. */
  lemma BegunExactly(s: State, i: nat, now: int)
    requires i < |s.workers|
    ensures var t := Begin(s, i, now);
            if s.desiredVersion > s.publishedVersion || s.checkQueued then
              && t.workers == s.workers[
                   i := Building(s.desiredVersion, s.desired, s.checkQueued, s.source, s.publication)]
              && t == s.(workers := t.workers, checkQueued := false,
                         nextCheck := if s.checkQueued then now + 60_000 else s.nextCheck)
            else t == s.(workerRunning := false, workers := s.workers[..i] + s.workers[i + 1..])
  {
  }

  /** What a build answers: new signals exactly when the rows changed, were never read, or the
      opportunities are others than published; the revision is read anew only by a check. */
  lemma BuiltExactly(w: Worker, revision: nat)
    requires w.Building?
    ensures var build := Built(w, revision);
            && build.source == Source(if w.check then revision else w.cached.revision, true)
            && (build.sourceChanged <==> !w.cached.loaded || (w.check && revision != w.cached.revision))
            && build.publication
               == if build.sourceChanged || w.version != w.published.version
                  then Publication(w.version, build.source.revision) else w.published
  {
  }

  /** A failed build is on record, and a failed check too. The worker goes on exactly when more was
      asked for since; if it stops with something still wanted, one retry of the cycle is
      scheduled. */
  lemma FailedExactly(s: State, i: nat)
    requires i < |s.workers| && s.workers[i].Building?
    ensures var t, w := Fail(s, i), s.workers[i];
            var more := s.desiredVersion > w.target || s.checkQueued;
            var retry := !more && !s.retryScheduled && !s.retryAttempted
                         && (s.desiredVersion > s.publishedVersion || s.checkFailed || w.check);
            && t.buildFailed && (t.checkFailed <==> s.checkFailed || w.check)
            && t.timers == s.timers + (if retry then 1 else 0) && (t.retryScheduled <==> s.retryScheduled || retry)
            && (if more then t.workers == s.workers[i := AtTop] && t.workerRunning == s.workerRunning
                else t.workers == s.workers[..i] + s.workers[i + 1..] && !t.workerRunning)
            && t == s.(buildFailed := true, checkFailed := t.checkFailed, timers := t.timers,
                       retryScheduled := t.retryScheduled, workers := t.workers, workerRunning := t.workerRunning)
  {
  }

  /** A build that is answered brings its source, and new rows ask for a new version. It is
      published, at the version wanted, exactly when its opportunities are still the wanted
      ones, and that ends the failure and the cycle's retry; a check that succeeded ends the failed
      check and is due again a minute later. The worker goes on exactly when more is wanted. */
  lemma PublishedExactly(s: State, i: nat, revision: nat, now: int)
    requires Inv(s) && i < |s.workers| && s.workers[i].Building?
    ensures var t, w := Publish(s, i, revision, now), s.workers[i];
            var build := Built(w, revision);
            var current := w.version == s.desired;
            var more := t.desiredVersion > t.publishedVersion || s.checkQueued;
            && t.source == build.source
            && t.desiredVersion == s.desiredVersion + (if build.sourceChanged then 1 else 0)
            && (t.checkFailed <==> s.checkFailed && !w.check)
            && t.nextCheck == (if w.check then now + 60_000 else s.nextCheck)
            && t.publication == (if current then build.publication else s.publication)
            && t.publishedVersion == (if current then t.desiredVersion else s.publishedVersion)
            && (t.buildFailed <==> s.buildFailed && !current) && (t.retryAttempted <==> s.retryAttempted && !current)
            && (if more then t.workers == s.workers[i := AtTop] && t.workerRunning == s.workerRunning
                else t.workers == s.workers[..i] + s.workers[i + 1..] && !t.workerRunning)
            && t == s.(source := t.source, desiredVersion := t.desiredVersion, checkFailed := t.checkFailed,
                       nextCheck := t.nextCheck, publication := t.publication, publishedVersion := t.publishedVersion,
                       buildFailed := t.buildFailed, retryAttempted := t.retryAttempted, retries := t.retries,
                       workers := t.workers, workerRunning := t.workerRunning)
  {
    assert s.workers[i] in s.workers;
    AnswerOnRows(s, i, revision, now);
    hide Inv;
  }

  /** The retry is used up, asks for the failed check again, and starts a worker exactly when
      something is wanted and none runs. */
  lemma RetriedExactly(s: State)
    requires s.timers > 0
    ensures var t := Retry(s);
            && t.timers == s.timers - 1 && !t.retryScheduled && t.retryAttempted
            && (t.checkQueued <==> s.checkQueued || s.checkFailed)
            && (t.workerRunning <==> s.workerRunning || s.desiredVersion > s.publishedVersion || t.checkQueued)
            && t.workers == s.workers + (if t.workerRunning && !s.workerRunning then [AtTop] else [])
            && t == s.(timers := t.timers, retryScheduled := false, retryAttempted := true, retries := t.retries,
                       checkQueued := t.checkQueued, workerRunning := t.workerRunning, workers := t.workers)
  {
  }

  /** One step of a run is one of these sections. */
  lemma SectionOf(s: State, step: Step)
    requires Enabled(s, step)
    ensures step.Ask? ==> Next(s, step) == Request(s, step.opportunities, step.now)
    ensures step.Top? ==> Next(s, step) == Begin(s, step.worker, step.now)
    ensures step.Answer? && step.reply.Error? ==> Next(s, step) == Fail(s, step.worker)
    ensures step.Answer? && step.reply.Revision? ==>
              Next(s, step) == Publish(s, step.worker, step.reply.revision, step.now)
    ensures step.Fire? ==> Next(s, step) == Retry(s)
  {
  }

  // ----- when the published signals are from the latest funding rows

  predicate FromLatestRows(s: State) {
    s.publication.revision == s.source.revision
  }

  /** A worker comes back with new rows for opportunities that are no longer wanted. */
  predicate Overtaken(s: State, step: Step)
    requires Enabled(s, step)
  {
    && step.Answer? && step.reply.Revision?
    && var w := s.workers[step.worker];
       Built(w, step.reply.revision).source.revision != s.source.revision && w.version != s.desired
  }

  /** A worker publishes signals that it has computed, not the ones published before. */
  predicate Recomputed(s: State, step: Step)
    requires Enabled(s, step)
  {
    && step.Answer? && step.reply.Revision?
    && var w := s.workers[step.worker];
       w.version == s.desired
       && (Built(w, step.reply.revision).sourceChanged || w.version != w.published.version)
  }

  lemma AnswerOnRows(s: State, i: nat, revision: nat, now: int)
    requires Inv(s) && i < |s.workers| && s.workers[i].Building?
    ensures var w := s.workers[i];
            var build := Built(w, revision);
            var t := Publish(s, i, revision, now);
            && t.source == build.source && w.cached == s.source && w.published == s.publication
            && build.publication.version == w.version
            && t.publication == if w.version == s.desired then build.publication else s.publication
  {
    hide Without;
    assert s.workers[i] in s.workers;
  }

  /** A step takes the published signals off the latest rows exactly when an answer was overtaken. */
  lemma StepKeepsLatestExactly(s: State, step: Step)
    requires Inv(s) && Enabled(s, step) && FromLatestRows(s)
    ensures FromLatestRows(Next(s, step)) <==> !Overtaken(s, step)
  {
    if step.Answer? && step.reply.Revision? {
      AnswerOnRows(s, step.worker, step.reply.revision, step.now);
    }
  }

  /** Once off the latest rows, a recomputation brings the signals back; without one, only
      an answer that reads the old revision again does. */
  lemma StepBringsBackExactly(s: State, step: Step)
    requires Inv(s) && Enabled(s, step) && !FromLatestRows(s)
    ensures FromLatestRows(Next(s, step)) <==>
              || Recomputed(s, step)
              || (step.Answer? && step.reply.Revision? && s.workers[step.worker].version != s.desired
                  && Built(s.workers[step.worker], step.reply.revision).source.revision == s.publication.revision)
  {
    if step.Answer? && step.reply.Revision? {
      AnswerOnRows(s, step.worker, step.reply.revision, step.now);
    }
  }

  predicate AlwaysLatest(s: State, steps: seq<Step>)
    requires Possible(s, steps)
    decreases |steps|
  {
    FromLatestRows(s) && (steps == [] || AlwaysLatest(Next(s, steps[0]), steps[1..]))
  }

  predicate NeverOvertaken(s: State, steps: seq<Step>)
    requires Possible(s, steps)
    decreases |steps|
  {
    steps == [] || (!Overtaken(s, steps[0]) && NeverOvertaken(Next(s, steps[0]), steps[1..]))
  }

  /** Over every run, what is published is always from the latest rows exactly when no answer
      with new rows was overtaken by a change of the opportunities. */
  lemma {:induction false} AlwaysLatestExactly(s: State, steps: seq<Step>)
    requires Inv(s) && Possible(s, steps) && FromLatestRows(s)
    ensures AlwaysLatest(s, steps) <==> NeverOvertaken(s, steps)
    decreases |steps|
  {
    hide Inv, FromLatestRows, Overtaken, Next;
    if steps != [] {
      StepKeepsInv(s, steps[0]);
      StepKeepsLatestExactly(s, steps[0]);
      if FromLatestRows(Next(s, steps[0])) {
        AlwaysLatestExactly(Next(s, steps[0]), steps[1..]);
      } else {
        assert AlwaysLatest(s, steps) == AlwaysLatest(Next(s, steps[0]), steps[1..]);
      }
    }
  }

  // ----- a run that is overtaken

  const A := map["x" := 1]
  const B := map["x" := 2]

  /** The first request, its build from revision 1, and a due request for the same opportunities. */
  const OPENING := [Ask(A, 0), Top(0, 0), Answer(0, Revision(1), 0), Ask(A, 60_000), Top(0, 60_000)]

  /** While revision 2 is read for `A`, the opportunities change to `B`, and then back. */
  const OVERTAKING := [
    Ask(B, 60_001), Answer(0, Revision(2), 60_002), Ask(A, 60_003), Top(0, 60_003), Answer(0, Revision(2), 60_004)]

  const PUBLISHED := INITIAL.(
    source := Source(1, true), publication := Publication(Some(A), 1), desiredVersion := 2, publishedVersion := 2,
    nextCheck := 60_000, known := A, desired := Some(A))

  const REBUILDING := PUBLISHED.(
    workerRunning := true, nextCheck := 120_000,
    workers := [Building(2, Some(A), true, Source(1, true), Publication(Some(A), 1))])

  lemma FirstRequestBuilds()
    ensures var s := Request(INITIAL, A, 0);
            s.workers == [AtTop] && Begin(s, 0, 0) == INITIAL.(
              desiredVersion := 1, workerRunning := true, nextCheck := 60_000, known := A, desired := Some(A),
              workers := [Building(1, Some(A), true, Source(0, false), Publication(None, 0))])
  {
    assert "x" in A && map[] + A == A;
    assert Request(INITIAL, A, 0).workers == [AtTop];
  }

  lemma DueRequestRebuilds()
    ensures var s := Request(PUBLISHED, A, 60_000);
            s.workers == [AtTop] && Begin(s, 0, 60_000) == REBUILDING
  {
    assert "x" in A && A + A == A;
    assert Request(PUBLISHED, A, 60_000).workers == [AtTop];
  }

  lemma OpeningIsPossible()
    ensures Possible(INITIAL, OPENING) && Run(INITIAL, OPENING) == REBUILDING
  {
    FirstRequestBuilds();
    DueRequestRebuilds();
    hide Request, Begin;
    var s1 := Next(INITIAL, OPENING[0]);
    var s2 := Next(s1, OPENING[1]);
    LastWorkerLeaves(s2.workers);
    var s3 := Next(s2, OPENING[2]);
    assert s3 == PUBLISHED;
    var t3 := OPENING[1..][1..][1..];
    assert t3 == [Ask(A, 60_000), Top(0, 60_000)] && t3[1..] == [Top(0, 60_000)] && t3[1..][1..] == [];
    var s4 := Next(s3, t3[0]);
    assert Possible(s4, t3[1..]) && Run(s4, t3[1..]) == REBUILDING;
    assert Possible(s3, t3) && Run(s3, t3) == REBUILDING;
    assert Possible(s1, OPENING[1..]) && Run(s1, OPENING[1..]) == REBUILDING;
  }

  /** From the start: signals of revision 1 are published as current after revision 2 was read. */
  lemma OldRowsPublishedAsCurrent()
    ensures Possible(INITIAL, OPENING) && Possible(Run(INITIAL, OPENING), OVERTAKING)
    ensures var s := Run(Run(INITIAL, OPENING), OVERTAKING);
            && s.publishedVersion == s.desiredVersion && s.workers == []
            && s.source.revision == 2 && s.publication == Publication(Some(A), 1)
  {
    OpeningIsPossible();
    assert A + A == A && A + B == B && B + A == A && A["x"] != B["x"];
    var s3 := Request(REBUILDING, B, 60_001);
    assert s3.workers == REBUILDING.workers && s3.desiredVersion == 3;
    var s4 := Publish(s3, 0, 2, 60_002);
    assert s4.workers == [AtTop] && s4.source == Source(2, true) && s4.publication == REBUILDING.publication;
    var s5 := Request(s4, A, 60_003);
    assert s5.workers == [AtTop];
    var s6 := Begin(s5, 0, 60_003);
    assert s6.workers[0].cached == Source(2, true) && !s6.workers[0].check;
    LastWorkerLeaves(s6.workers);
    var s7 := Publish(s6, 0, 2, 60_004);
    var t2 := OVERTAKING[1..][1..];
    assert t2[1..][1..] == [Answer(0, Revision(2), 60_004)] && t2[1..][1..][1..] == [];
    assert Possible(s6, t2[1..][1..]) && Run(s6, t2[1..][1..]) == s7;
    assert Possible(s4, t2) && Run(s4, t2) == s7;
  }

  // ----- the projection itself

  /** `p` holds the fields that the mutex guards. */
  class OpportunitySignalProjection {
    var p: State

    ghost predicate Valid()
      reads this
    {
      Inv(p)
    }

    constructor ()
      ensures Valid() && p == INITIAL
    {
      p := INITIAL;
    }

    method UpdateOpportunities(opportunities: Opportunities) returns (changed: bool)
      modifies this
      ensures p == Updated(old(p), opportunities) && changed == (old(p).desired != p.desired)
    {
      p := p.(known := p.known + opportunities);
      changed := p.desired != Some(p.known);
      if changed {
        p := p.(desired := Some(p.known));
      }
    }

    method RecordRequest(opportunities: Opportunities, now: int) returns (newCycle: bool)
      modifies this
      ensures p == Asked(old(p), opportunities, now) && newCycle == NewCycle(old(p), opportunities, now)
    {
      hide Updated;
      var changed := UpdateOpportunities(opportunities);
      var due := now >= p.nextCheck;
      newCycle := changed || due;
      p := p.(desiredVersion := if changed then p.desiredVersion + 1 else p.desiredVersion,
              checkQueued := p.checkQueued || !p.source.loaded || due,
              retryAttempted := if newCycle then false else p.retryAttempted,
              retries := if newCycle then 0 else p.retries);
    }

    method Launch()
      modifies this
      ensures p == StartIf(old(p), true)
    {
      p := p.(workerRunning := true, workers := p.workers + [AtTop]);
    }

    /** Serves a request from the last publication and starts a worker if one is wanted.
        `found`: the opportunities that the published signals cover. */
    method OpportunitiesWithSignals(opportunities: Opportunities, found: set<string>, now: int)
      returns (startWorker: bool, statuses: map<string, Status>)
      requires Valid()
      modifies this
      ensures Valid() && p == Next(old(p), Ask(opportunities, now))
      ensures startWorker <==> |p.workers| > |old(p).workers|
      ensures statuses == map id | id in opportunities :: StatusOf(p, id in found)
    {
      hide Inv, NewCycle;
      AskKeepsInv(p, opportunities, now);
      startWorker, statuses := false, map[];
      if opportunities != map[] {
        var newCycle := RecordRequest(opportunities, now);
        startWorker := Needed(p) && !p.workerRunning && !p.retryAttempted && (!p.retryScheduled || newCycle);
        if startWorker {
          Launch();
        }
        statuses := map id | id in opportunities :: StatusOf(p, id in found);
      }
    }

    method Stop(more: bool)
      requires |p.workers| == 1
      modifies this
      ensures p == Continue(old(p), 0, more)
    {
      if more {
        p := p.(workers := p.workers[0 := AtTop]);
      } else {
        p := p.(workerRunning := false, workers := Without(p.workers, 0));
      }
    }

    /** The top of the worker's loop; `job` is what it goes out to build. */
    method BeginRefresh(now: int) returns (job: Option<Worker>)
      requires Valid() && p.workers == [AtTop]
      modifies this
      ensures Valid() && p == Next(old(p), Top(0, now))
      ensures if job.Some? then p.workers == [job.value] else p.workers == [] && !Needed(p)
    {
      hide Inv;
      BeginKeepsInv(p, 0, now);
      job := None;
      if p.desiredVersion <= p.publishedVersion && !p.checkQueued {
        Stop(false);
      } else {
        job := Some(Building(p.desiredVersion, p.desired, p.checkQueued, p.source, p.publication));
        if p.checkQueued {
          p := p.(nextCheck := now + RETRY_DELAY);
        }
        p := p.(checkQueued := false, workers := p.workers[0 := job.value]);
      }
    }

    /** The worker returns with a failed build. */
    method RefreshFailed(job: Worker) returns (followUp: bool, scheduleRetry: bool)
      requires Valid() && job.Building? && p.workers == [job] && p.workerRunning
      modifies this
      ensures Valid() && p == Next(old(p), Answer(0, Error, 0))
      ensures followUp == p.workerRunning && (scheduleRetry <==> p.timers > old(p).timers)
    {
      hide Inv;
      FailKeepsInv(p, 0);
      p := p.(buildFailed := true);
      if job.check {
        p := p.(checkFailed := true);
      }
      followUp := p.desiredVersion > job.target || p.checkQueued;
      scheduleRetry := !followUp && !p.retryScheduled && !p.retryAttempted
                       && (p.desiredVersion > p.publishedVersion || p.checkFailed);
      if scheduleRetry {
        p := p.(retryScheduled := true, timers := p.timers + 1);
      }
      Stop(followUp);
    }

    method TakeSource(job: Worker, build: Build, now: int)
      requires job.Building?
      modifies this
      ensures p == Loaded(old(p), job, build, now)
    {
      if job.check {
        p := p.(checkFailed := false, nextCheck := now + RETRY_DELAY);
      }
      p := p.(source := build.source);
      if build.sourceChanged {
        p := p.(desiredVersion := p.desiredVersion + 1);
      }
    }

    /** The worker returns with a build, which is published if it is for the present opportunities. */
    method RefreshBuilt(job: Worker, revision: nat, now: int) returns (followUp: bool)
      requires Valid() && job.Building? && p.workers == [job] && p.workerRunning
      modifies this
      ensures Valid() && p == Next(old(p), Answer(0, Revision(revision), now))
      ensures followUp == p.workerRunning
      ensures job.version == p.desired ==> p.publication.version == p.desired && p.publishedVersion == p.desiredVersion
    {
      hide Inv, Built;
      PublishKeepsInv(p, 0, revision, now);
      JobIsCurrent(p, job, revision);
      var build := Built(job, revision);
      TakeSource(job, build, now);
      if job.version == p.desired && build.publication.version == job.version {
        p := p.(publication := build.publication, publishedVersion := p.desiredVersion,
                buildFailed := false, retryAttempted := false, retries := 0);
      }
      followUp := Needed(p);
      Stop(followUp);
    }

    /** The retry timer fires. */
    method RetryOpportunitySignals() returns (startWorker: bool)
      requires Valid() && p.timers > 0
      modifies this
      ensures Valid() && p == Next(old(p), Fire)
      ensures startWorker <==> |p.workers| > |old(p).workers|
    {
      hide Inv;
      StepKeepsInv(p, Fire);
      p := p.(retryScheduled := false, retryAttempted := true, timers := p.timers - 1, retries := p.retries + 1);
      if p.checkFailed {
        p := p.(checkQueued := true);
      }
      startWorker := Needed(p) && !p.workerRunning;
      if startWorker {
        Launch();
      }
    }
  }

  lemma JobIsCurrent(s: State, job: Worker, revision: nat)
    requires Inv(s) && job.Building? && s.workers == [job]
    ensures Built(job, revision).publication.version == job.version
  {
  }
}
