# Suspicious-contest detector

This project models the detection logic of CF-Sus-Detector, a single-page
form that fetches a Codeforces user's submission history. It groups the
submissions by contest and reports every contest in which each recorded
verdict is `"SKIPPED"`. The model is the body of `checkForCheating`
(`src/App.js`), lifted out of the asynchronous React handler into three
methods in module `CheatDetector` (`cheat_detector.dfy`):

- `GroupByContest` is the grouping pass. A loop over the submissions builds
  a map from contest id to the list of its verdicts. It creates an empty
  list the first time an id is seen, then appends the verdict.
- `FindSuspicious` is the detection pass. A loop over the map's keys keeps
  each contest whose list is non-empty and all `"SKIPPED"`.
- `CheckForCheating` runs both passes. It returns `isCheater` together with
  the flagged ids.

The methods are proved against reference definitions:

- `ContestIds`: the contests that occur in the input.
- `VerdictsOf`: the verdicts of one contest, in input order.
- `Flagged`: the detection rule stated directly on the submissions. It holds
  when the user made at least one submission in the contest and every one of
  them was skipped.
- `TotalVerdicts`: the number of verdicts across all groups.

Lemmas prove the properties of these definitions.

Modelling choices:

- A contest id is a `string`. The dictionary's keys and the ids reported by
  `Object.entries` are strings, and the model only compares them for
  equality.
- A verdict is a `string`. A submission whose verdict is absent behaves like
  any verdict other than `"SKIPPED"`: it fails the `=== "SKIPPED"` test and
  still counts in its group's length. So it needs no case of its own.
- The order in which the detection pass visits keys is left open (a `:|`
  choice). The flagged ids are therefore specified as a set of distinct
  entries, not as a list in a particular order.

## Model

| member | source | states |
|---|---|---|
| `CheatDetector.GroupByContest` | src/App.js:19-28 | The keys of the result are exactly the contest ids in the input. Each group equals the verdicts of that contest's submissions in input order. Every group is non-empty. The group lengths sum to the number of submissions. |
| `CheatDetector.FindSuspicious` | src/App.js:31-37 | An id is reported if and only if it is a key whose group is non-empty and all `"SKIPPED"`. No id is reported twice. |
| `CheatDetector.CheckForCheating` | src/App.js:19-42 | `isCheater` holds exactly when the reported list is non-empty. An id is reported if and only if the user submitted in that contest and every such submission was skipped. Ids are distinct. Empty input gives `isCheater = false` and an empty list. |
| `CheatDetector.AllSkipped` | src/App.js:34 | The `every` test holds exactly when each verdict in the list equals `"SKIPPED"`, so it is vacuously true on an empty list. |
| `CheatDetector.VerdictsOfAppend` | src/App.js:22-28 | Grouping preserves input order. The group built from a concatenation of two runs of submissions is the first run's group followed by the second's. |
| `CheatDetector.VerdictsOfSnoc` | src/App.js:23-27 | One more submission appends its verdict to its own contest's group and leaves every other group unchanged. |
| `CheatDetector.ContestIdsSnoc` | src/App.js:24-26 | One more submission adds its contest id to the set of keys, and nothing else. |
| `CheatDetector.VerdictsOfNonEmpty` | src/App.js:24-27 | A contest's group is non-empty if and only if some submission was made in that contest. |
| `CheatDetector.GroupsOfPush` | src/App.js:23-27 | One step of the grouping loop keeps the grouping invariant: keys, group contents, non-empty groups and the verdict count. |
| `CheatDetector.VerdictsOfAllSkipped` | src/App.js:34 | A group is all `"SKIPPED"` if and only if every submission in that contest was skipped. |
| `CheatDetector.SuspiciousIffFlagged` | src/App.js:32-36 | The group-level test of the detection pass holds if and only if the detection rule holds on the raw submissions. |
| `CheatDetector.MixedContestNotSuspicious` | src/App.js:34 | A contest with at least one verdict other than `"SKIPPED"` is never reported. |
| `CheatDetector.SoleSkippedSuspicious` | src/App.js:34-35 | A contest whose only submission was skipped is reported. |
| `CheatDetector.SkippedAndAcceptedExample` | src/App.js:19-42 | Input: two skipped submissions in contest "9" and one `"OK"` in contest "10". The group test holds for "9" and for no other id. |
| `CheatDetector.DocumentedExamples` | src/App.js:19-42 | Running the whole check on three documented inputs gives these results. Two skipped in "9" and `"OK"` in "10" give `isCheater` with contests `["9"]`. All-skipped "101" beside a mixed "202" gives `isCheater` with `["101"]`. `"OK"` and `"WRONG_ANSWER"` in "5" give no flag and an empty list. |

## Left out

- The HTTP request through `axios.get` (src/App.js:14-18) is network I/O through a library that is not part of this model. The input sequence stands for its result.
- The asynchronous `try`/`catch`/`finally`, `console.error` and `alert` on failure (src/App.js:9-13, 43-48) are side effects and user notification.
- The React state is presentation and is not modelled: `username`, `cheaterStatus`, `loading` and their setters `setLoading` and `setCheaterStatus` (src/App.js:5-7, 10-11, 39-42, 47). The object passed to `setCheaterStatus` at src/App.js:39-42 is instead the result of `CheckForCheating`.
- All JSX rendering and input handling (src/App.js:51-95) are presentation.
- The coercion of a numeric `contestId` to a string key is not modelled, because ids are already keys compared only for equality. On integers this coercion is injective.
- GroupByContest: contest ids are treated as ordinary dictionary keys. In the source, an id equal to a property name inherited from `Object.prototype` (`constructor`, `toString`, `valueOf`, `hasOwnProperty`, `__proto__`, …) finds a truthy inherited value at src/App.js:24, so no array is created. The `push` at src/App.js:27 then throws, and the check ends in the failure path of src/App.js:43-45 with no result. The model instead groups such an id like any other string. Real contest ids are integers, or `undefined` when absent, so they never take these names.
- The order of `Object.entries`, which lists integer-like keys in ascending numeric order, is not modelled. Only membership and distinctness of the reported ids are specified.
