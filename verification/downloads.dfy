/** One download through a mirror group, as values: what the grabber and the
    failure callback answer, and the attempt loop of `MirrorGroup._mirror_try`
    as two functions, `Pass` for one time round the loop and `Run` for the
    whole loop. The imperative `MirrorGroup.MirrorTry` is proved to follow
    `Run`; the lemmas here say what `Run` does. */
module Downloads {
  import opened Wrappers
  import opened Actions
  import opened Urls
  import opened Failover

  /** The `URLGrabError` raised when a download has run out of mirrors. */
  const NoMoreMirrorsErrno := 256
  const NoMoreMirrorsMessage := "No more mirrors to try."

  /** One entry of a request's `errors` list: the full URL tried and the
      message of the error it failed with. */
  datatype ErrorEntry = ErrorEntry(url: Url, message: string)

  /** The error a grabber raises for one attempt (errno and message). */
  datatype TransferError = TransferError(errno: int, message: string)

  /** A `URLGrabError` leaving the group, with its `errors` attribute set. */
  datatype GrabError = GrabError(errno: int, message: string, errors: seq<ErrorEntry>)

  /** What one grabber call does: return its result or raise. */
  datatype Attempt = Got(data: string) | Failed(error: TransferError)

  /** The grabber, as an oracle: the outcome of attempt number `tries` on a
      full URL. */
  type Fetcher = (nat, Url) -> Attempt

  /** The `CallbackObject` handed to the failure callback. */
  datatype CallbackObject = CallbackObject(exception: TransferError, mirror: Url, tries: nat,
                                           relativeUrl: string, url: Url)

  /** What a failure callback does: return an action dict (`None` reads as
      the empty dict) or raise. */
  datatype Reply = Returned(action: Action) | Raised(error: TransferError)

  type Callback = CallbackObject -> Reply

  /** The callback's answer; without a callback, the empty action, so the
      merged defaults decide alone. */
  function Decide(cb: Option<Callback>, obj: CallbackObject): (r: Reply)
    ensures cb.None? ==> r == Returned(map[])
    ensures cb.Some? ==> r == cb.value(obj)
  {
    match cb
    case None => Returned(map[])
    case Some(f) => f(obj)
  }

  /** `call or group`: the call's callback when it has one, else the group's;
      none only when neither has one. */
  function Pick(call: Option<Callback>, group: Option<Callback>): (r: Option<Callback>)
    ensures call.Some? ==> r == call
    ensures call.None? ==> r == group
    ensures r.None? <==> call.None? && group.None?
  {
    if call.Some? then call else group
  }

  /** What one download works with: the group's and the call's
      `default_action`, the failure callback in force, the relative URL and
      the grabber. */
  datatype Job = Job(group: Action, call: Action, callback: Option<Callback>, rel: string, fetch: Fetcher)

  /** The state a download works on: the group's master list, the request's
      list, the request's `errors`, and (for the statements below) the mirrors
      tried so far, in order. */
  datatype Session = Session(master: ListState, local: ListState, errors: seq<ErrorEntry>, tried: seq<Mirror>)

  /** A download starts from a copy of the master list and cursor, with no
      errors (`_load_gr`, then `gr.errors = []`). */
  function Start(master: ListState): (s: Session)
    ensures s.local == s.master == master && s.errors == [] && s.tried == []
  {
    Session(master, master, [], [])
  }

  /** Every answer the callback can give, merged with the two defaults,
      removes the failed mirror from the request's list. */
  ghost predicate AlwaysRemoves(j: Job) {
    forall obj :: Decide(j.callback, obj).Returned? ==> Flag(Merge(j.group, j.call, Decide(j.callback, obj).action), Remove)
  }

  /** No answer the callback can give, merged with the two defaults, removes
      the failed mirror from the master list. */
  ghost predicate NeverRemovesMaster(j: Job) {
    forall obj :: Decide(j.callback, obj).Returned? ==> !Flag(Merge(j.group, j.call, Decide(j.callback, obj).action), RemoveMaster)
  }

  /** A plain policy: the callback never raises, and every answer, merged,
      removes the failed mirror from the request's list and does not say
      `fail`. */
  ghost predicate Plain(j: Job) {
    forall obj :: && Decide(j.callback, obj).Returned?
                  && Flag(Merge(j.group, j.call, Decide(j.callback, obj).action), Remove)
                  && !Flag(Merge(j.group, j.call, Decide(j.callback, obj).action), Fail)
  }

  /** Without a callback and without default actions the policy is plain and
      never removes from the master list (the class documentation's default
      behaviour). */
  lemma DefaultsArePlain(rel: string, fetch: Fetcher)
    ensures Plain(Job(map[], map[], None, rel, fetch))
    ensures AlwaysRemoves(Job(map[], map[], None, rel, fetch))
    ensures NeverRemovesMaster(Job(map[], map[], None, rel, fetch))
  {
  }

  /** How a download ends. `OutOfTries` has no counterpart in the source,
      whose loop has no bound: it is where the model stops a download that
      has made `maxTries` failed attempts. */
  datatype Outcome =
    | Fetched(data: string)
    | Exhausted(error: GrabError)
    | HardFailed(error: GrabError)
    | CallbackFailed(raised: TransferError)
    | OutOfTries(errors: seq<ErrorEntry>)

  /** One time round the `while True` loop, attempt number `tries`: out of
      mirrors, stop with errno 256; otherwise try the mirror at the cursor;
      on failure log it, consult the callback, and either stop with the error
      it raised or apply the merged action to both lists and re-raise when it
      says `fail`. `None` means the loop goes round again. */
  function Pass(j: Job, tries: nat, s: Session): (r: (Option<Outcome>, Session))
    requires CursorOk(s.local)
    ensures CursorOk(r.1.local)
    ensures CursorOk(s.master) ==> CursorOk(r.1.master)
    ensures r.0.Some? ==> !r.0.value.OutOfTries?
    ensures s.local.mirrors == [] ==> r.1 == s
    ensures s.local.mirrors != [] ==> r.1.tried == s.tried + [s.local.mirrors[s.local.next]]
    ensures multiset(r.1.local.mirrors) <= multiset(s.local.mirrors)
    ensures |s.errors| <= |r.1.errors| <= |s.errors| + (if s.local.mirrors == [] then 0 else 1)
    ensures r.0.None? ==> |r.1.errors| == |s.errors| + 1
  {
    if s.local.mirrors == [] then
      (Some(Exhausted(GrabError(NoMoreMirrorsErrno, NoMoreMirrorsMessage, s.errors))), s)
    else
      var m := s.local.mirrors[s.local.next];
      var url := JoinUrl(m.url, j.rel);
      var tried := s.tried + [m];
      match j.fetch(tries, url)
      case Got(data) => (Some(Fetched(data)), s.(tried := tried))
      case Failed(e) =>
        var errors := s.errors + [ErrorEntry(url, e.message)];
        match Decide(j.callback, CallbackObject(e, m.url, tries, j.rel, url))
        case Raised(x) => (Some(CallbackFailed(x)), s.(errors := errors, tried := tried))
        case Returned(answer) =>
          var action := Merge(j.group, j.call, answer);
          var next := Session(MasterStep(s.master, m, action), LocalStep(s.local, action), errors, tried);
          if Flag(action, Fail) then (Some(HardFailed(GrabError(e.errno, e.message, errors))), next)
          else (None, next)
  }

  /** The loop from attempt `tries + 1` on, stopped after attempt `maxTries`
      (`OutOfTries`): the outcome and the final state. */
  function Run(j: Job, tries: nat, maxTries: nat, s: Session): (r: (Outcome, Session))
    requires CursorOk(s.local)
    ensures CursorOk(r.1.local)
    ensures CursorOk(s.master) ==> CursorOk(r.1.master)
    decreases maxTries - tries
  {
    if tries >= maxTries then (OutOfTries(s.errors), s)
    else
      var p := Pass(j, tries + 1, s);
      if p.0.Some? then (p.0.value, p.1) else Run(j, tries + 1, maxTries, p.1)
  }

  /** The loop goes round again exactly when the list was not empty, the
      grabber failed, the callback answered, and the merged answer does not
      say `fail`; then the failed mirror was handed to both halves of
      `increment_mirror` with the merged answer. */
  lemma PassContinues(j: Job, tries: nat, s: Session)
    requires CursorOk(s.local)
    ensures var r := Pass(j, tries, s);
      r.0.None? <==>
        && s.local.mirrors != []
        && var m := s.local.mirrors[s.local.next];
           var url := JoinUrl(m.url, j.rel);
           && j.fetch(tries, url).Failed?
           && var reply := Decide(j.callback, CallbackObject(j.fetch(tries, url).error, m.url, tries, j.rel, url));
              && reply.Returned?
              && !Flag(Merge(j.group, j.call, reply.action), Fail)
              && r.1.local == LocalStep(s.local, Merge(j.group, j.call, reply.action))
              && r.1.master == MasterStep(s.master, m, Merge(j.group, j.call, reply.action))
              && r.1.errors == s.errors + [ErrorEntry(url, j.fetch(tries, url).error.message)]
  {
  }

  /** The entries of a log are the failures of attempts 1, 2, ... in order:
      entry `i` is the URL built from the `i`-th mirror tried, and the grabber
      failed attempt `i + 1` on it with that message. */
  ghost predicate LogMatches(log: seq<ErrorEntry>, tried: seq<Mirror>, rel: string, fetch: Fetcher) {
    && |log| <= |tried|
    && forall i :: 0 <= i < |log| ==>
         && log[i].url == JoinUrl(tried[i].url, rel)
         && fetch(i + 1, log[i].url).Failed?
         && fetch(i + 1, log[i].url).error.message == log[i].message
  }

  /** Trying one more mirror keeps the log's account of earlier attempts. */
  lemma LogMatchesTry(log: seq<ErrorEntry>, tried: seq<Mirror>, rel: string, fetch: Fetcher, m: Mirror)
    requires LogMatches(log, tried, rel, fetch)
    ensures LogMatches(log, tried + [m], rel, fetch)
  {
  }

  /** Logging the failure of the latest attempt extends the account by one. */
  lemma LogMatchesFail(log: seq<ErrorEntry>, tried: seq<Mirror>, rel: string, fetch: Fetcher, e: ErrorEntry)
    requires LogMatches(log, tried, rel, fetch) && |log| < |tried|
    requires e.url == JoinUrl(tried[|log|].url, rel)
    requires fetch(|log| + 1, e.url).Failed? && fetch(|log| + 1, e.url).error.message == e.message
    ensures LogMatches(log + [e], tried, rel, fetch)
  {
    forall i | 0 <= i < |log| + 1
      ensures (log + [e])[i].url == JoinUrl(tried[i].url, rel)
      ensures fetch(i + 1, (log + [e])[i].url).Failed?
      ensures fetch(i + 1, (log + [e])[i].url).error.message == (log + [e])[i].message
    {
      if i < |log| {
        assert (log + [e])[i] == log[i];
      }
    }
  }

  /** How a download that made at most `maxTries` attempts ends, given its
      final state `f`: the log accounts for every failed attempt; a success is
      the grabber's answer for the attempt after the last logged one; running
      out of mirrors happens only with an empty request list and carries
      errno 256 and the whole log; a re-raised failure is the grabber's error
      of the last logged attempt, re-raised because the callback's answer for
      it, merged, says `fail`; a callback error is what the callback raised
      for the last logged attempt; only the bound itself yields
      `OutOfTries`. */
  ghost predicate EndsAs(j: Job, o: Outcome, f: Session, maxTries: nat) {
    var log, tried := f.errors, f.tried;
    && LogMatches(log, tried, j.rel, j.fetch)
    && (o.Fetched? ==>
          && |tried| == |log| + 1
          && j.fetch(|tried|, JoinUrl(tried[|log|].url, j.rel)) == Got(o.data))
    && (o.Exhausted? ==>
          && |tried| == |log| < maxTries
          && f.local.mirrors == []
          && o.error == GrabError(NoMoreMirrorsErrno, NoMoreMirrorsMessage, log))
    && (o.HardFailed? ==>
          && |tried| == |log| > 0
          && o.error.errors == log
          && var e := TransferError(o.error.errno, o.error.message);
             var last := log[|log| - 1];
             && j.fetch(|log|, last.url) == Failed(e)
             && var reply := Decide(j.callback, CallbackObject(e, tried[|log| - 1].url, |log|, j.rel, last.url));
                reply.Returned? && Flag(Merge(j.group, j.call, reply.action), Fail))
    && (o.CallbackFailed? ==>
          && |tried| == |log| > 0
          && var last := log[|log| - 1];
             && j.fetch(|log|, last.url).Failed?
             && Decide(j.callback, CallbackObject(j.fetch(|log|, last.url).error, tried[|log| - 1].url,
                                                  |log|, j.rel, last.url))
                == Raised(o.raised))
    && (o.OutOfTries? ==> o.errors == log && |tried| == |log| == maxTries)
  }

  /** One pass from a log that accounts for the attempts so far: when it
      stops, the download ends as `EndsAs` says; when the loop goes on, the
      log accounts for one more attempt. */
  lemma PassEndsAs(j: Job, tries: nat, maxTries: nat, s: Session)
    requires CursorOk(s.local) && tries < maxTries
    requires |s.errors| == |s.tried| == tries
    requires LogMatches(s.errors, s.tried, j.rel, j.fetch)
    ensures var p := Pass(j, tries + 1, s);
      && (p.0.Some? ==> EndsAs(j, p.0.value, p.1, maxTries))
      && (p.0.None? ==> |p.1.errors| == |p.1.tried| == tries + 1 && LogMatches(p.1.errors, p.1.tried, j.rel, j.fetch))
  {
    if s.local.mirrors != [] {
      var m := s.local.mirrors[s.local.next];
      var url := JoinUrl(m.url, j.rel);
      LogMatchesTry(s.errors, s.tried, j.rel, j.fetch, m);
      if j.fetch(tries + 1, url).Failed? {
        LogMatchesFail(s.errors, s.tried + [m], j.rel, j.fetch, ErrorEntry(url, j.fetch(tries + 1, url).error.message));
      }
    }
  }

  /** Whatever the callback and the actions, the loop ends as `EndsAs` says,
      provided the log so far accounts for the attempts so far. */
  lemma {:induction false} RunEndsAs(j: Job, tries: nat, maxTries: nat, s: Session)
    requires CursorOk(s.local) && tries <= maxTries
    requires |s.errors| == |s.tried| == tries
    requires LogMatches(s.errors, s.tried, j.rel, j.fetch)
    ensures EndsAs(j, Run(j, tries, maxTries, s).0, Run(j, tries, maxTries, s).1, maxTries)
    decreases maxTries - tries
  {
    if tries < maxTries {
      PassEndsAs(j, tries, maxTries, s);
      var p := Pass(j, tries + 1, s);
      if p.0.None? {
        RunEndsAs(j, tries + 1, maxTries, p.1);
      }
    }
  }

  /** The mirrors tried extend those tried before, at most one per attempt. */
  lemma {:induction false} RunTries(j: Job, tries: nat, maxTries: nat, s: Session)
    requires CursorOk(s.local) && tries <= maxTries && |s.tried| == tries
    ensures var f := Run(j, tries, maxTries, s).1;
      |s.tried| <= |f.tried| <= maxTries && f.tried[..|s.tried|] == s.tried
    decreases maxTries - tries
  {
    if tries < maxTries {
      var p := Pass(j, tries + 1, s);
      if p.0.None? {
        RunTries(j, tries + 1, maxTries, p.1);
        var f := Run(j, tries + 1, maxTries, p.1).1.tried;
        assert f[..|s.tried|] == f[..|s.tried| + 1][..|s.tried|];
      }
    }
  }

  /** The first mirror tried is the one at the request's cursor. */
  lemma RunFirstTry(j: Job, tries: nat, maxTries: nat, s: Session)
    requires CursorOk(s.local) && tries <= maxTries && |s.tried| == tries
    ensures var f := Run(j, tries, maxTries, s).1;
      |f.tried| > |s.tried| ==> s.local.mirrors != [] && f.tried[|s.tried|] == s.local.mirrors[s.local.next]
  {
    if tries < maxTries && s.local.mirrors != [] {
      var p := Pass(j, tries + 1, s);
      if p.0.None? {
        RunTries(j, tries + 1, maxTries, p.1);
        var f := Run(j, tries + 1, maxTries, p.1).1.tried;
        assert f[|s.tried|] == f[..|s.tried| + 1][|s.tried|];
      }
    }
  }

  /** Every mirror tried from here on comes from the request's list as it is
      now: the list only ever loses entries. */
  lemma {:induction false} RunTriesOwnMirrors(j: Job, tries: nat, maxTries: nat, s: Session)
    requires CursorOk(s.local)
    ensures var f := Run(j, tries, maxTries, s).1;
      forall m :: m in f.tried ==> m in s.tried || m in s.local.mirrors
    decreases maxTries - tries
  {
    if tries < maxTries && s.local.mirrors != [] {
      var p := Pass(j, tries + 1, s);
      if p.0.None? {
        RunTriesOwnMirrors(j, tries + 1, maxTries, p.1);
        forall m | m in p.1.local.mirrors ensures m in s.local.mirrors {
          assert m in multiset(p.1.local.mirrors);
        }
      }
    }
  }

  /** When every answer removes the failed mirror from the request's list,
      at most as many attempts fail as the list had entries, and a bound
      above that length is never reached. */
  lemma {:induction false} RunRemovalBound(j: Job, tries: nat, maxTries: nat, s: Session)
    requires AlwaysRemoves(j) && CursorOk(s.local)
    ensures var r := Run(j, tries, maxTries, s);
      && |s.errors| <= |r.1.errors| <= |s.errors| + |s.local.mirrors|
      && (maxTries > tries + |s.local.mirrors| ==> !r.0.OutOfTries?)
    decreases maxTries - tries
  {
    if tries < maxTries {
      var p := Pass(j, tries + 1, s);
      if p.0.None? {
        PassRemoves(j, tries + 1, s);
        RunRemovalBound(j, tries + 1, maxTries, p.1);
      }
    }
  }

  /** When every answer removes, a pass after which the loop goes round
      again has taken one entry off the request's list. */
  lemma PassRemoves(j: Job, tries: nat, s: Session)
    requires AlwaysRemoves(j) && CursorOk(s.local)
    ensures Pass(j, tries, s).0.None? ==> |Pass(j, tries, s).1.local.mirrors| == |s.local.mirrors| - 1
  {
    if s.local.mirrors != [] {
      var m := s.local.mirrors[s.local.next];
      var url := JoinUrl(m.url, j.rel);
      if j.fetch(tries, url).Failed? {
        var reply := Decide(j.callback, CallbackObject(j.fetch(tries, url).error, m.url, tries, j.rel, url));
        if reply.Returned? {
          assert Flag(Merge(j.group, j.call, reply.action), Remove);
        }
      }
    }
  }

  /** When no answer removes the failed mirror from the master list, the
      master list comes out of the download as it went in. */
  lemma {:induction false} RunKeepsMaster(j: Job, tries: nat, maxTries: nat, s: Session)
    requires NeverRemovesMaster(j) && CursorOk(s.local)
    ensures Run(j, tries, maxTries, s).1.master.mirrors == s.master.mirrors
    decreases maxTries - tries
  {
    if tries < maxTries && s.local.mirrors != [] {
      var m := s.local.mirrors[s.local.next];
      var url := JoinUrl(m.url, j.rel);
      var p := Pass(j, tries + 1, s);
      if j.fetch(tries + 1, url).Failed? {
        var reply := Decide(j.callback, CallbackObject(j.fetch(tries + 1, url).error, m.url, tries + 1, j.rel, url));
        if reply.Returned? {
          assert !Flag(Merge(j.group, j.call, reply.action), RemoveMaster);
        }
      }
      if p.0.None? {
        RunKeepsMaster(j, tries + 1, maxTries, p.1);
      }
    }
  }

  /** Reference definition of a plain sweep: try the mirrors of `order` one
      after the other, attempt `tries + 1` first, logging each failure, until
      one succeeds, the order is used up or the bound is reached. */
  function Sweep(j: Job, order: seq<Mirror>, tries: nat, maxTries: nat,
                 errors: seq<ErrorEntry>, tried: seq<Mirror>): (Outcome, seq<ErrorEntry>, seq<Mirror>)
    decreases maxTries - tries
  {
    if tries >= maxTries then (OutOfTries(errors), errors, tried)
    else if order == [] then (Exhausted(GrabError(NoMoreMirrorsErrno, NoMoreMirrorsMessage, errors)), errors, tried)
    else
      var url := JoinUrl(order[0].url, j.rel);
      match j.fetch(tries + 1, url)
      case Got(data) => (Fetched(data), errors, tried + [order[0]])
      case Failed(e) =>
        Sweep(j, order[1..], tries + 1, maxTries, errors + [ErrorEntry(url, e.message)], tried + [order[0]])
  }

  /** With a plain policy the loop is a sweep of the request's list in its
      order of use from the cursor: each mirror once, the one after the
      cursor next, wrapping round. */
  lemma {:induction false} RunSweeps(j: Job, tries: nat, maxTries: nat, s: Session)
    requires Plain(j) && CursorOk(s.local)
    ensures var r := Run(j, tries, maxTries, s);
      var w := Sweep(j, Rotation(s.local), tries, maxTries, s.errors, s.tried);
      r.0 == w.0 && r.1.errors == w.1 && r.1.tried == w.2
    decreases maxTries - tries
  {
    if tries < maxTries && s.local.mirrors != [] {
      var m := s.local.mirrors[s.local.next];
      var url := JoinUrl(m.url, j.rel);
      assert Rotation(s.local)[0] == m;
      if j.fetch(tries + 1, url).Failed? {
        var obj := CallbackObject(j.fetch(tries + 1, url).error, m.url, tries + 1, j.rel, url);
        assert Decide(j.callback, obj).Returned?;
        var action := Merge(j.group, j.call, Decide(j.callback, obj).action);
        LocalRemoveRotates(s.local, action);
        var p := Pass(j, tries + 1, s);
        assert p.0.None? && p.1.local == LocalStep(s.local, action);
        RunSweeps(j, tries + 1, maxTries, p.1);
      }
    }
  }

  /** The first `k` mirrors of `order` fail from attempt `tries + 1` on. */
  ghost predicate FirstFail(j: Job, order: seq<Mirror>, tries: nat, k: nat)
    requires k <= |order|
  {
    forall i :: 0 <= i < k ==> j.fetch(tries + 1 + i, JoinUrl(order[i].url, j.rel)).Failed?
  }

  /** When the first `k` mirrors fail, the first fails, and so do the first
      `k - 1` of the rest, one attempt later. */
  lemma FirstFailRest(j: Job, order: seq<Mirror>, tries: nat, k: nat)
    requires 0 < k <= |order| && FirstFail(j, order, tries, k)
    ensures j.fetch(tries + 1, JoinUrl(order[0].url, j.rel)).Failed?
    ensures FirstFail(j, order[1..], tries + 1, k - 1)
  {
    assert j.fetch(tries + 1 + 0, JoinUrl(order[0].url, j.rel)).Failed?;
    forall i | 0 <= i < k - 1
      ensures j.fetch(tries + 1 + 1 + i, JoinUrl(order[1..][i].url, j.rel)).Failed?
    {
      assert order[1..][i] == order[i + 1];
    }
  }

  /** A sweep in which every mirror fails, within the bound, runs out of
      mirrors after logging one failure per mirror, having tried them all. */
  lemma {:induction false} SweepAllFail(j: Job, order: seq<Mirror>, tries: nat, maxTries: nat,
                                        errors: seq<ErrorEntry>, tried: seq<Mirror>)
    requires tries + |order| < maxTries
    requires forall i :: 0 <= i < |order| ==> j.fetch(tries + 1 + i, JoinUrl(order[i].url, j.rel)).Failed?
    ensures var w := Sweep(j, order, tries, maxTries, errors, tried);
      && w.0 == Exhausted(GrabError(NoMoreMirrorsErrno, NoMoreMirrorsMessage, w.1))
      && |w.1| == |errors| + |order| && w.2 == tried + order
    decreases |order|
  {
    if order != [] {
      assert FirstFail(j, order, tries, |order|);
      FirstFailRest(j, order, tries, |order|);
      var url := JoinUrl(order[0].url, j.rel);
      SweepAllFail(j, order[1..], tries + 1, maxTries, errors + [ErrorEntry(url, j.fetch(tries + 1, url).error.message)],
                   tried + [order[0]]);
      assert tried + [order[0]] + order[1..] == tried + order;
    }
  }

  /** A sweep whose first `k` mirrors fail and whose next one succeeds, within
      the bound, returns that mirror's data after logging `k` failures. */
  lemma {:induction false} SweepKthSucceeds(j: Job, order: seq<Mirror>, tries: nat, maxTries: nat,
                                            errors: seq<ErrorEntry>, tried: seq<Mirror>, k: nat)
    requires k < |order| && tries + k < maxTries
    requires FirstFail(j, order, tries, k)
    requires j.fetch(tries + 1 + k, JoinUrl(order[k].url, j.rel)).Got?
    ensures var w := Sweep(j, order, tries, maxTries, errors, tried);
      && w.0 == Fetched(j.fetch(tries + 1 + k, JoinUrl(order[k].url, j.rel)).data)
      && |w.1| == |errors| + k && w.2 == tried + order[..k + 1]
    decreases k
  {
    if k > 0 {
      FirstFailRest(j, order, tries, k);
      assert order[1..][k - 1] == order[k];
      assert j.fetch(tries + 1 + 1 + (k - 1), JoinUrl(order[1..][k - 1].url, j.rel)).Got?;
      var url := JoinUrl(order[0].url, j.rel);
      SweepKthSucceeds(j, order[1..], tries + 1, maxTries, errors + [ErrorEntry(url, j.fetch(tries + 1, url).error.message)],
                       tried + [order[0]], k - 1);
      assert tried + [order[0]] + order[1..][..k] == tried + order[..k + 1];
    }
  }

  /** A sweep that runs out of mirrors has logged a failure for every mirror
      of its order and tried them all. */
  lemma {:induction false} SweepExhausted(j: Job, order: seq<Mirror>, tries: nat, maxTries: nat,
                                          errors: seq<ErrorEntry>, tried: seq<Mirror>)
    ensures var w := Sweep(j, order, tries, maxTries, errors, tried);
      w.0.Exhausted? ==> |w.1| == |errors| + |order| && w.2 == tried + order
    decreases maxTries - tries
  {
    if tries < maxTries && order != [] {
      var url := JoinUrl(order[0].url, j.rel);
      if j.fetch(tries + 1, url).Failed? {
        SweepExhausted(j, order[1..], tries + 1, maxTries, errors + [ErrorEntry(url, j.fetch(tries + 1, url).error.message)],
                       tried + [order[0]]);
        assert tried + [order[0]] + order[1..] == tried + order;
      }
    }
  }

  /** With a plain policy, a download in which every remaining mirror fails
      runs out of mirrors (errno 256) after logging exactly one failure per
      mirror of the request's list, tried in order from its cursor, wrapping
      round. From the start of a download (`Start(master)`, attempt 0) that
      is every mirror of the master list, from the master cursor on. */
  lemma AllMirrorsFail(j: Job, s: Session, tries: nat, maxTries: nat)
    requires Plain(j) && CursorOk(s.local) && tries + |s.local.mirrors| < maxTries
    requires forall i :: 0 <= i < |s.local.mirrors| ==>
      j.fetch(tries + 1 + i, JoinUrl(Rotation(s.local)[i].url, j.rel)).Failed?
    ensures var r := Run(j, tries, maxTries, s);
      && r.0 == Exhausted(GrabError(NoMoreMirrorsErrno, NoMoreMirrorsMessage, r.1.errors))
      && |r.1.errors| == |s.errors| + |s.local.mirrors|
      && r.1.tried == s.tried + Rotation(s.local)
  {
    RunSweeps(j, tries, maxTries, s);
    SweepAllFail(j, Rotation(s.local), tries, maxTries, s.errors, s.tried);
  }

  /** With a plain policy, when the first `k` mirrors in order of use fail and
      the next one succeeds, the download returns that mirror's data after
      logging exactly `k` more failures. */
  lemma KthMirrorSucceeds(j: Job, s: Session, tries: nat, maxTries: nat, k: nat)
    requires Plain(j) && CursorOk(s.local) && k < |s.local.mirrors| && tries + k < maxTries
    requires forall i :: 0 <= i < k ==> j.fetch(tries + 1 + i, JoinUrl(Rotation(s.local)[i].url, j.rel)).Failed?
    requires j.fetch(tries + 1 + k, JoinUrl(Rotation(s.local)[k].url, j.rel)).Got?
    ensures var r := Run(j, tries, maxTries, s);
      && r.0 == Fetched(j.fetch(tries + 1 + k, JoinUrl(Rotation(s.local)[k].url, j.rel)).data)
      && |r.1.errors| == |s.errors| + k
      && r.1.tried == s.tried + Rotation(s.local)[..k + 1]
  {
    RunSweeps(j, tries, maxTries, s);
    assert FirstFail(j, Rotation(s.local), tries, k);
    SweepKthSucceeds(j, Rotation(s.local), tries, maxTries, s.errors, s.tried, k);
  }

  /** With a plain policy, running out of mirrors means every mirror of the
      request's list was tried once, in order from its cursor, and logged. */
  lemma PlainExhaustion(j: Job, s: Session, tries: nat, maxTries: nat)
    requires Plain(j) && CursorOk(s.local)
    ensures var r := Run(j, tries, maxTries, s);
      r.0.Exhausted? ==> |r.1.errors| == |s.errors| + |s.local.mirrors| && r.1.tried == s.tried + Rotation(s.local)
  {
    RunSweeps(j, tries, maxTries, s);
    SweepExhausted(j, Rotation(s.local), tries, maxTries, s.errors, s.tried);
  }
}
