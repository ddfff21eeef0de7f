# MirrorGroup failover, modelled in Dafny

urlgrabber's `MirrorGroup` downloads a relative URL from one of several
mirrors. The group holds a master mirror list and a cursor `_next`; each
download gets a `GrabRequest` with a private copy of both. Each attempt joins
the chosen mirror's base URL with the relative URL and calls the grabber. When
the grabber raises `URLGrabError`, the failure is logged in the request's
`errors`, and `_failure` asks the failure callback for an action dict. That
answer is merged over the call's and the group's `default_action`, and
`increment_mirror` applies the merged action. It may remove the mirror from
the request's list or from the master list, or advance either cursor. If the
merged action says `fail`, the error is re-raised with the log attached. The
download ends with a result, that re-raised error, an error the callback
raised itself, or errno 256 "No more mirrors to try." once the request's list
is empty. `MGRandomStart` starts the master cursor at a random index, and
`MGRandomOrder` shuffles the master list once, at construction.

The project has six files:

- `wrappers.dfy`: `Option` and `Result`.
- `actions.dfy`: an action dict as a `map` from its five keys to integers,
  read with Python's truthiness (any non-zero value is set). It also holds the
  three-level merge, and a reference definition of that merge as a search
  through the levels from the highest precedence down.
- `urls.dfy`: a URL held as its `urlsplit` five-tuple, and the separator rule
  of `_join_url`.
- `failover.dfy`: a mirror list with its cursor, as a value. The master half
  and the request half of `increment_mirror` are functions on it
  (`MasterStep`, `LocalStep`), with the lemmas about them.
- `downloads.dfy`: one download as values. The grabber is a function from
  (attempt number, full URL) to success or failure, and the failure callback
  a function from the callback object to an action or a raised error. `Pass`
  is one time round the attempt loop of `_mirror_try` and `Run` the whole
  loop; the lemmas say how a download ends, which mirrors it tries in which
  order, and when it terminates. `Sweep` is an independent reference
  definition of the plain case: the mirrors tried one after the other from
  the cursor, wrapping round.
- `mirror_group.dfy`: the classes `GrabRequest` and `MirrorGroup`, whose
  methods update their lists and cursors in place. Each method is tied by
  its `ensures` to the functions of `failover.dfy` and `downloads.dfy`:
  `MirrorTry` ends with the outcome, master state and log that `Run` gives
  from the group's state on entry.

Two behaviours of the code that are easy to misread:

- `_join_url` adds no separator when the path ends with `/` or the relative
  URL starts with `/`, and removes none. When both sides carry `/` the code
  keeps the doubled separator: `"/dir/"` joined with `"/f.zip"` is
  `"/dir//f.zip"` (`Urls.JoinPathExamples`).
- The `increment_mirror` docstring gives `remove=2` as "remove permanently".
  The code only tests the value's truth, so 2 behaves like 1 and removes the
  mirror from the request's list only. Removal from the master list happens
  only through `remove_master`.

## Model

| member | source | states |
|---|---|---|
| Actions.BuiltinDefault | urlgrabber/mirror.py:378-387 | The fallback of each `.get`: 1 for `increment`, `increment_master` and `remove`, 0 for `remove_master` and `fail` |
| Actions.Get | urlgrabber/mirror.py:344 | `dict.get(k, default)`: the dict's value when it holds the key, the default otherwise |
| Actions.Flag | urlgrabber/mirror.py:378-387 | A key is in force exactly when the dict holds a non-zero value for it (2 acts like 1), or omits it and its built-in default is on |
| Actions.Merge | urlgrabber/mirror.py:339-342 | The merged dict has the keys of all three levels; a key the callback's answer sets takes its value; a key the call sets and the callback does not takes the call's value; a key only the group sets keeps the group's value |
| Actions.MergePrecedence | urlgrabber/mirror.py:182-196 | For every key and fallback, reading the merged dict equals searching callback answer, then call default, then group default, then the fallback (the documented "increasing precedence") |
| Actions.UnsetKeyFallsThrough | urlgrabber/mirror.py:334-342 | A key the callback's answer does not set reads as the merge of the call and group defaults alone (per-key fall-through rather than whole-dict override) |
| Actions.CallbackWins | urlgrabber/mirror.py:186-188 | A key the callback's answer sets reads as the callback's value whatever the defaults say |
| Actions.DefaultPolicy | urlgrabber/mirror.py:165-169 | With no action set anywhere the effective flags are increment, increment_master and remove on, remove_master and fail off |
| Actions.DocumentedMerge | urlgrabber/mirror.py:182-196 | The docstring's worked example: group `{'fail':1}`, call `{'increment':0}`, callback `{'fail':0}` gives increment off, increment_master on, remove on, remove_master off, fail off |
| Urls.JoinPath | urlgrabber/mirror.py:410-414 | `path + sep + rel`: one character longer than its parts exactly when neither side has a `/` at the seam |
| Urls.JoinPathShape | urlgrabber/mirror.py:410-414 | The joined path starts with the base path, ends with the relative URL, and has a `/` at the seam: a `/` is added only when neither side has one, and none is removed |
| Urls.JoinPathDetermined | urlgrabber/mirror.py:410-414 | The length law of `JoinPath` and the facts of `JoinPathShape` determine the joined path uniquely, so together they describe the rule completely |
| Urls.JoinPathExamples | urlgrabber/mirror.py:410-414 | `/dir/`+`f.zip` and `/dir`+`f.zip` give `/dir/f.zip`; `/dir/`+`/f.zip` gives `/dir//f.zip`; an empty path gives `/f.zip` |
| Urls.JoinUrl | urlgrabber/mirror.py:404-414 | `_join_url` keeps the scheme, host, query and fragment of the base URL and replaces only its path, by the joined path above |
| Failover.Wrap | urlgrabber/mirror.py:382 | Resetting the cursor: one at or past the end becomes 0, one in range is kept, the list is left alone; the result is a valid cursor |
| Failover.IndexOf | urlgrabber/mirror.py:374-377 | `list.index`: absent exactly when the mirror is not in the list (the `ValueError` branch), otherwise the position of its first occurrence |
| Failover.RemoveAt | urlgrabber/mirror.py:379 | `del`: one element shorter, exactly one copy of the removed element gone |
| Failover.RemoveAtShifts | urlgrabber/mirror.py:379 | `del` keeps the order of the others: entries before the index stay, entries after it move down by one |
| Failover.MasterStep | urlgrabber/mirror.py:370-383 | The master update: an absent mirror changes nothing; a valid cursor stays valid; without remove_master the list is unchanged; the list only ever loses the failed mirror |
| Failover.MasterRemovesFirstOccurrence | urlgrabber/mirror.py:374-382 | With remove_master, exactly the first occurrence of the failed mirror is deleted and every other entry keeps its order |
| Failover.MasterAdvances | urlgrabber/mirror.py:378-382 | Without remove_master, the cursor moves to the cyclic successor exactly when it points at the failed mirror and increment_master is set, else it stays |
| Failover.MasterRemovalBeforeCursorSkips | urlgrabber/mirror.py:378-382 | Removing a master entry that lies before the cursor leaves the cursor's index unchanged, so the mirror after the one it pointed at becomes the next choice |
| Failover.LocalStep | urlgrabber/mirror.py:385-389 | The request update: the cursor stays valid; with remove the entry at the cursor is deleted, otherwise the list is unchanged; the list only loses entries |
| Failover.LocalStepNext | urlgrabber/mirror.py:385-389 | The new cursor index: with remove it stays (0 if the failed entry was last), with increment it is the cyclic successor, otherwise unchanged; with remove or increment it designates the entry that followed the failed one |
| Failover.Rotation | urlgrabber/mirror.py:385-389 | The order of use from the cursor: a permutation of the list that starts at the cursor's entry |
| Failover.RotationAt | urlgrabber/mirror.py:385-389 | Entry i of that order is the entry i places after the cursor, cyclically |
| Failover.LocalRemoveRotates | urlgrabber/mirror.py:385-389 | Removing the entry at the cursor takes exactly the first entry off the order of use and leaves the rest in order |
| Failover.DefaultFailure | urlgrabber/mirror.py:143-147 | Under the default action the master list keeps the failed mirror (it can serve later downloads) while the request's list loses exactly it |
| Downloads.Decide | urlgrabber/mirror.py:326-333 | Without a callback the answer is the empty action, so the merged defaults decide alone; with one, the answer is whatever it returns (`None` reads as `{}`) or raises |
| Downloads.Pick | urlgrabber/mirror.py:325 | `call or group`: the call's callback when it has one, else the group's; none only when neither has one |
| Downloads.DefaultsArePlain | urlgrabber/mirror.py:143-147 | With no callback and no default actions the policy is plain (never raises, always removes locally, never fails) and never removes from the master list |
| Downloads.Start | urlgrabber/mirror.py:302-308 | A download starts with the request's list and cursor equal to the master's, no errors and nothing tried |
| Downloads.Pass | urlgrabber/mirror.py:429-449 | One time round the loop keeps both cursors valid, never yields OutOfTries, changes nothing on an empty list, tries the mirror at the cursor otherwise, never adds entries to the request's list, and logs at most one failure (exactly one when the loop goes on) |
| Downloads.PassContinues | urlgrabber/mirror.py:320-346 | The loop goes on exactly when the list was not empty, the grabber failed, the callback answered and the merged answer does not say fail; both lists then take `MasterStep`/`LocalStep` of the merged answer and the log grows by the failure |
| Downloads.Run | urlgrabber/mirror.py:428-449 | The whole loop keeps both cursors valid |
| Downloads.PassEndsAs | urlgrabber/mirror.py:429-449 | One time round the loop: when it stops, the download ends as described below for `RunEndsAs`; when it goes on, the log accounts for exactly one more attempt, the failure just seen |
| Downloads.RunEndsAs | urlgrabber/mirror.py:416-449 | For every callback and action: log entry i is the failure of attempt i+1 on the i-th mirror tried; errno 256 only with an empty request list and the whole log; a re-raise only when the merged answer for the last failure says fail; a callback error is exactly what the callback raised for it; a success is the grabber's data for the attempt after the last failure |
| Downloads.RunTries | urlgrabber/mirror.py:428-433 | At most one mirror is tried per attempt, and the history only grows |
| Downloads.RunFirstTry | urlgrabber/mirror.py:430-431 | The first mirror tried is the one at the request's cursor |
| Downloads.RunTriesOwnMirrors | urlgrabber/mirror.py:385-389 | Every mirror tried comes from the request's list as loaded: the list only loses entries |
| Downloads.PassRemoves | urlgrabber/mirror.py:385-386 | When every answer removes, a pass after which the loop goes on takes one entry off the request's list |
| Downloads.RunRemovalBound | urlgrabber/mirror.py:385-386 | When every answer removes, at most as many failures are logged as the request's list had entries, and a bound above that is never reached: the loop ends |
| Downloads.RunKeepsMaster | urlgrabber/mirror.py:378-379 | When no answer says remove_master, the master list is the same after the download |
| Downloads.SweepAllFail | urlgrabber/mirror.py:149-152 | Reference sweep: if every mirror fails, it runs out with errno 256 after one logged failure per mirror, having tried them all in order |
| Downloads.SweepKthSucceeds | urlgrabber/mirror.py:141-147 | Reference sweep: if the first k mirrors fail and the next succeeds, it returns that data after k logged failures |
| Downloads.SweepExhausted | urlgrabber/mirror.py:149-152 | Reference sweep: running out means every mirror was tried and logged |
| Downloads.RunSweeps | urlgrabber/mirror.py:385-389 | With a plain policy the loop is exactly the reference sweep of the request's list in order of use from its cursor: same outcome, same log, same mirrors tried |
| Downloads.AllMirrorsFail | urlgrabber/mirror.py:149-152 | With a plain policy and every mirror failing, the download ends with errno 256 after exactly one logged failure per mirror, tried in order from the cursor, wrapping round |
| Downloads.KthMirrorSucceeds | urlgrabber/mirror.py:141-147 | With a plain policy, when the first k mirrors in order of use fail and the next succeeds, the download returns that mirror's data with exactly k logged failures |
| Downloads.PlainExhaustion | urlgrabber/mirror.py:149-152 | With a plain policy, errno 256 means every mirror of the list was tried once, in order from the cursor, and logged |
| MirrorGroups.GrabRequest.constructor | urlgrabber/mirror.py:417-422 | A fresh request has an empty list, cursor 0 and no errors, and carries the call's URL, default action and callback |
| MirrorGroups.GrabRequest.Advance | urlgrabber/mirror.py:385-389 | The request half of `increment_mirror` in place: the new list and cursor are `LocalStep` of the old ones; the log is untouched |
| MirrorGroups.MirrorGroup.constructor | urlgrabber/mirror.py:253-288 | The master list is a permutation of the given mirrors (the speed sort's order is left open) and the cursor is 0 |
| MirrorGroups.MirrorGroup.RandomOrder | urlgrabber/mirror.py:494-509 | `MGRandomOrder`: the master list is some permutation of the given mirrors, fixed from then on, with the cursor at 0 |
| MirrorGroups.MirrorGroup.RandomStart | urlgrabber/mirror.py:479-492 | `MGRandomStart`: no group for an empty mirror list (`randrange(0)` raises); otherwise a permutation of the mirrors with the cursor at some valid index |
| MirrorGroups.MirrorGroup.LoadRequest | urlgrabber/mirror.py:302-308 | The request's list and cursor become the master's |
| MirrorGroups.MirrorGroup.GetMirror | urlgrabber/mirror.py:310-318 | Errno 256 "No more mirrors to try." carrying the request's log exactly when the request's list is empty; otherwise the mirror at the cursor |
| MirrorGroups.MirrorGroup.UpdateMaster | urlgrabber/mirror.py:370-383 | The locked block in place: the new master list and cursor are `MasterStep` of the old ones |
| MirrorGroups.MirrorGroup.IncrementMirror | urlgrabber/mirror.py:348-389 | Both halves applied to the failed mirror: master becomes `MasterStep`, request becomes `LocalStep`, both cursors stay valid; an empty request list (`IndexError`) changes nothing |
| MirrorGroups.MirrorGroup.CallbackFor | urlgrabber/mirror.py:325 | The callback `_failure` consults: the request's own when the call gave one, the group's `failure_callback` otherwise |
| MirrorGroups.MirrorGroup.HandleFailure | urlgrabber/mirror.py:320-346 | A callback that raises changes nothing and its error propagates; otherwise the merged action is applied through both steps and the failure is re-raised exactly when the merged `fail` is set, after the update |
| MirrorGroups.MirrorGroup.RecordFailure | urlgrabber/mirror.py:438-449 | The log grows by exactly (full URL, message); the callback sees attempt number `tries`; a raising callback changes nothing and its error is the verdict; otherwise master and request become `MasterStep`/`LocalStep` of the merged answer and the verdict is Reraise exactly when it says fail |
| MirrorGroups.MirrorGroup.TryOnce | urlgrabber/mirror.py:429-449 | One time round the loop in place: the stop and the new master, request and log are exactly `Pass` of the old ones |
| MirrorGroups.MirrorGroup.MirrorTry | urlgrabber/mirror.py:416-449 | The outcome, the master list and cursor afterwards, the log and the mirrors tried are exactly those of `Run` from a fresh request loaded from the group's state on entry, so every `Run` lemma above holds of the method |

## Left out

- The lock around the master list and any concurrency: the model is sequential, and each method runs as one atomic step.
- The grabber itself, `opts.derive` and per-mirror `grabber`/`kwargs` overrides: the grabber is a function from attempt number and full URL to success or a `URLGrabError` (errno and message). Exceptions other than `URLGrabError`, which the loop does not catch, are not modelled.
- The `_TH.estimate` speed sort in the constructor: the initial order is any permutation of the given mirrors.
- `random.randrange` and `random.shuffle`: the choice is left open (any valid index, any permutation), not uniform.
- `urlsplit`/`urlunsplit`, the bytes/str distinction, `_to_utf8` and `_parse_mirrors`: mirror URLs are held already split, and a mirror is its URL.
- The failure callback given as a `(callback, args, kwargs)` tuple: a callback is one function of the callback object.
- `exception2msg`: the logged message is the error's message.
- The public `urlgrab`, `urlopen` and `urlread` wrappers, the choice of grabber function they pass, and the stripping of `default_action`/`failure_callback` from the grabber's keyword arguments.
- A call-level `default_action=None`, on which the source's `dict.update` raises `TypeError`: the call's default action is always a dict.
- `DEBUG` logging.
- MirrorGroups.MirrorGroup.MirrorTry: the source loops without bound; the model stops after `maxTries` attempts with `OutOfTries`, and proves that this cannot happen when every merged action removes and `maxTries` exceeds the number of mirrors.
