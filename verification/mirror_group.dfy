/** `MirrorGroup` and its per-download `GrabRequest`: the master mirror
    list and cursor, the private copy each download works on, and the attempt
    loop of `_mirror_try` with its failure handling, each method proved to
    follow the functions of `Failover` and `Downloads`. */
module MirrorGroups {
  import opened Wrappers
  import opened Actions
  import opened Urls
  import opened Failover
  import opened Downloads

  /** How `_failure` ends: back to the loop, re-raising the grabber's error
      (`fail`), or with the error the callback raised. */
  datatype Verdict = Retry | Reraise | CallbackRaised(error: TransferError)

  /** The state of one download: its private mirror list and cursor, the
      errors so far, and the call's own options. */
  class GrabRequest {
    var mirrors: seq<Mirror>
    var next: int
    var errors: seq<ErrorEntry>
    const url: string
    const callDefault: Action
    const callCallback: Option<Callback>

    ghost function State(): ListState
      reads this
    {
      ListState(mirrors, next)
    }

    ghost predicate Valid()
      reads this
    {
      CursorOk(State())
    }

    constructor (url: string, callDefault: Action, callCallback: Option<Callback>)
      ensures Valid()
      ensures mirrors == [] && next == 0 && errors == []
      ensures this.url == url && this.callDefault == callDefault && this.callCallback == callCallback
    {
      this.url := url;
      this.callDefault := callDefault;
      this.callCallback := callCallback;
      mirrors, next, errors := [], 0, [];
    }

    /** The request half of `increment_mirror`. */
    method Advance(action: Action)
      requires 0 <= next < |mirrors|
      modifies this
      ensures State() == LocalStep(old(State()), action)
      ensures errors == old(errors)
    {
      if Flag(action, Remove) {
        mirrors := RemoveAt(mirrors, next);
      } else if Flag(action, Increment) {
        next := next + 1;
      }
      if next >= |mirrors| {
        next := 0;
      }
    }
  }

  class MirrorGroup {
    var mirrors: seq<Mirror>
    var next: int
    const defaultAction: Action
    const failureCallback: Option<Callback>

    ghost function State(): ListState
      reads this
    {
      ListState(mirrors, next)
    }

    ghost predicate Valid()
      reads this
    {
      CursorOk(State())
    }

    /** The group starts at the first mirror of its list, which holds the
        given mirrors in the order of the speed sort (an order the model
        leaves open). */
    constructor (ms: seq<Mirror>, defaultAction: Action, failureCallback: Option<Callback>)
      ensures Valid()
      ensures multiset(mirrors) == multiset(ms) && next == 0
      ensures this.defaultAction == defaultAction && this.failureCallback == failureCallback
    {
      var sorted: seq<Mirror> :| multiset(sorted) == multiset(ms);
      mirrors, next := sorted, 0;
      this.defaultAction := defaultAction;
      this.failureCallback := failureCallback;
    }

    /** `MGRandomOrder`: the sorted list is shuffled once, here, and never
        again. */
    constructor RandomOrder(ms: seq<Mirror>, defaultAction: Action, failureCallback: Option<Callback>)
      ensures Valid()
      ensures multiset(mirrors) == multiset(ms) && next == 0
      ensures this.defaultAction == defaultAction && this.failureCallback == failureCallback
    {
      var sorted: seq<Mirror> :| multiset(sorted) == multiset(ms);
      var shuffled: seq<Mirror> :| multiset(shuffled) == multiset(sorted);
      mirrors, next := shuffled, 0;
      this.defaultAction := defaultAction;
      this.failureCallback := failureCallback;
    }

    /** `MGRandomStart`: the cursor starts at some valid index. With no
        mirrors, `randrange(0)` raises and there is no group. */
    static method RandomStart(ms: seq<Mirror>, defaultAction: Action, failureCallback: Option<Callback>)
      returns (g: Option<MirrorGroup>)
      ensures g.None? <==> ms == []
      ensures g.Some? ==> fresh(g.value) && g.value.Valid()
      ensures g.Some? ==> multiset(g.value.mirrors) == multiset(ms) && 0 <= g.value.next < |ms|
      ensures g.Some? ==> g.value.defaultAction == defaultAction && g.value.failureCallback == failureCallback
    {
      var group := new MirrorGroup(ms, defaultAction, failureCallback);
      if ms == [] {
        return None;
      }
      assert |group.mirrors| == |multiset(group.mirrors)| == |ms|;
      var start :| 0 <= start < |ms|;
      group.next := start;
      g := Some(group);
    }

    /** `_load_gr`: the request gets a copy of the master list and cursor. */
    method LoadRequest(gr: GrabRequest)
      modifies gr
      ensures gr.mirrors == mirrors && gr.next == next
      ensures gr.errors == old(gr.errors)
    {
      gr.mirrors := mirrors;
      gr.next := next;
    }

    /** `_get_mirror`: the mirror at the request's cursor, or the terminal
        "No more mirrors" error carrying the request's log once its list is
        empty. */
    function GetMirror(gr: GrabRequest): (r: Result<Mirror, GrabError>)
      reads gr
      requires gr.Valid()
      ensures r.Failure? <==> gr.mirrors == []
      ensures r.Failure? ==> r.error == GrabError(NoMoreMirrorsErrno, NoMoreMirrorsMessage, gr.errors)
      ensures r.Success? ==> gr.next < |gr.mirrors| && r.value == gr.mirrors[gr.next]
    {
      if gr.mirrors == [] then
        Failure(GrabError(NoMoreMirrorsErrno, NoMoreMirrorsMessage, gr.errors))
      else
        Success(gr.mirrors[gr.next])
    }

    /** The locked block of `increment_mirror`, on the master list. */
    method UpdateMaster(bad: Mirror, action: Action)
      modifies this
      ensures State() == MasterStep(old(State()), bad, action)
    {
      match IndexOf(mirrors, bad) {
        case None =>
        case Some(ind) =>
          if Flag(action, RemoveMaster) {
            mirrors := RemoveAt(mirrors, ind);
          } else if next == ind && Flag(action, IncrementMaster) {
            next := next + 1;
          }
          if next >= |mirrors| {
            next := 0;
          }
      }
    }

    /** `increment_mirror`: both halves of the failure update, the master
        one as a single step. An empty request list makes the source raise
        `IndexError` before anything changes: `ok` is false then. */
    method IncrementMirror(gr: GrabRequest, action: Action) returns (ok: bool)
      requires Valid() && gr.Valid()
      modifies this, gr
      ensures Valid() && gr.Valid()
      ensures ok <==> old(gr.mirrors) != []
      ensures ok ==> State() == MasterStep(old(State()), old(gr.mirrors[gr.next]), action)
      ensures ok ==> gr.State() == LocalStep(old(gr.State()), action)
      ensures !ok ==> State() == old(State()) && gr.State() == old(gr.State())
      ensures gr.errors == old(gr.errors)
    {
      if gr.mirrors == [] {
        return false;
      }
      var badmirror := gr.mirrors[gr.next];
      UpdateMaster(badmirror, action);
      gr.Advance(action);
      ok := true;
    }

    /** The callback `_failure` consults: the call's, else the group's. */
    function CallbackFor(gr: GrabRequest): (cb: Option<Callback>)
      ensures gr.callCallback.Some? ==> cb == gr.callCallback
      ensures gr.callCallback.None? ==> cb == failureCallback
    {
      Pick(gr.callCallback, failureCallback)
    }

    /** `_failure`: ask the callback, merge its answer over the call's and the
        group's default actions, apply the merged action to both lists, and
        re-raise when its `fail` flag is set. An error raised by the callback
        propagates before anything changes. */
    method HandleFailure(gr: GrabRequest, obj: CallbackObject) returns (verdict: Verdict)
      requires Valid() && gr.Valid() && gr.mirrors != []
      modifies this, gr
      ensures Valid() && gr.Valid() && gr.errors == old(gr.errors)
      ensures Decide(CallbackFor(gr), obj).Raised? ==>
        && verdict == CallbackRaised(Decide(CallbackFor(gr), obj).error)
        && State() == old(State()) && gr.State() == old(gr.State())
      ensures Decide(CallbackFor(gr), obj).Returned? ==>
        var action := Merge(defaultAction, gr.callDefault, Decide(CallbackFor(gr), obj).action);
        && State() == MasterStep(old(State()), old(gr.mirrors[gr.next]), action)
        && gr.State() == LocalStep(old(gr.State()), action)
        && verdict == (if Flag(action, Fail) then Reraise else Retry)
    {
      var reply := Decide(CallbackFor(gr), obj);
      if reply.Raised? {
        return CallbackRaised(reply.error);
      }
      var action := Merge(defaultAction, gr.callDefault, reply.action);
      var ok := IncrementMirror(gr, action);
      verdict := if Flag(action, Fail) then Reraise else Retry;
    }

    /** What `_mirror_try` works with, as one value. */
    function JobOf(gr: GrabRequest, fetch: Fetcher): Job {
      Job(defaultAction, gr.callDefault, CallbackFor(gr), gr.url, fetch)
    }

    /** The `except` block of the attempt loop: log the failure, build the
        callback object for attempt number `tries` and hand it to `_failure`,
        whose effect on both lists and whose verdict are stated in full. */
    method RecordFailure(gr: GrabRequest, mirror: Mirror, fullurl: Url, error: TransferError, tries: nat)
      returns (verdict: Verdict)
      requires Valid() && gr.Valid() && gr.mirrors != []
      modifies this, gr
      ensures Valid() && gr.Valid()
      ensures gr.errors == old(gr.errors) + [ErrorEntry(fullurl, error.message)]
      ensures var reply := Decide(CallbackFor(gr), CallbackObject(error, mirror.url, tries, gr.url, fullurl));
        && (reply.Raised? ==>
              && verdict == CallbackRaised(reply.error)
              && State() == old(State()) && gr.State() == old(gr.State()))
        && (reply.Returned? ==>
              var action := Merge(defaultAction, gr.callDefault, reply.action);
              && State() == MasterStep(old(State()), old(gr.mirrors[gr.next]), action)
              && gr.State() == LocalStep(old(gr.State()), action)
              && verdict == (if Flag(action, Fail) then Reraise else Retry))
    {
      gr.errors := gr.errors + [ErrorEntry(fullurl, error.message)];
      var obj := CallbackObject(error, mirror.url, tries, gr.url, fullurl);
      verdict := HandleFailure(gr, obj);
    }

    /** One time round the `while True` loop of `_mirror_try`, attempt number
        `tries`: the stop (if any) and the new state are those of `Pass`.
        `tried` is the history of mirrors tried, kept for the statements. */
    method TryOnce(gr: GrabRequest, fetch: Fetcher, tries: nat, ghost tried: seq<Mirror>)
      returns (stop: Option<Outcome>, ghost tried': seq<Mirror>)
      requires Valid() && gr.Valid()
      modifies this, gr
      ensures Valid() && gr.Valid()
      ensures (stop, Session(State(), gr.State(), gr.errors, tried'))
           == Pass(JobOf(gr, fetch), tries, Session(old(State()), old(gr.State()), old(gr.errors), tried))
    {
      var choice := GetMirror(gr);
      if choice.Failure? {
        return Some(Exhausted(choice.error)), tried;
      }
      var mirror := choice.value;
      tried' := tried + [mirror];
      var fullurl := JoinUrl(mirror.url, gr.url);
      var attempt := fetch(tries, fullurl);
      if attempt.Got? {
        return Some(Fetched(attempt.data)), tried';
      }
      var verdict := RecordFailure(gr, mirror, fullurl, attempt.error, tries);
      match verdict {
        case Reraise =>
          stop := Some(HardFailed(GrabError(attempt.error.errno, attempt.error.message, gr.errors)));
        case CallbackRaised(e) =>
          stop := Some(CallbackFailed(e));
        case Retry =>
          stop := None;
      }
    }

    /** `_mirror_try`: load a request, then try mirrors until one succeeds,
        the request's list is exhausted, the merged action says `fail`, or
        the callback raises. The outcome, the master list and cursor after the
        download, the request's final `errors` (`log`) and the mirrors tried
        are those of `Run` from the group's state on entry; the lemmas of
        `Downloads` say what that means. */
    method MirrorTry(url: string, callDefault: Action, callCallback: Option<Callback>,
                     fetch: Fetcher, maxTries: nat)
      returns (outcome: Outcome, ghost log: seq<ErrorEntry>, ghost tried: seq<Mirror>)
      requires Valid()
      modifies this
      ensures Valid()
      ensures var r := Run(Job(defaultAction, callDefault, Pick(callCallback, failureCallback), url, fetch),
                           0, maxTries, Start(old(State())));
        outcome == r.0 && State() == r.1.master && log == r.1.errors && tried == r.1.tried
    {
      var gr := new GrabRequest(url, callDefault, callCallback);
      LoadRequest(gr);
      gr.errors := [];
      ghost var j := JobOf(gr, fetch);
      ghost var final := Run(j, 0, maxTries, Start(State()));
      tried := [];

      var tries := 0;
      while tries < maxTries
        invariant Valid() && gr.Valid() && JobOf(gr, fetch) == j
        invariant 0 <= tries <= maxTries
        invariant Run(j, tries, maxTries, Session(State(), gr.State(), gr.errors, tried)) == final
        decreases maxTries - tries
      {
        tries := tries + 1;
        var stop;
        stop, tried := TryOnce(gr, fetch, tries, tried);
        if stop.Some? {
          outcome, log := stop.value, gr.errors;
          return;
        }
      }
      outcome, log := OutOfTries(gr.errors), gr.errors;
    }
  }
}
