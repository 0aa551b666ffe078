# Notification bridge core, modelled in Dafny

The bridge listens to an NVR's object-detection events. It enriches
`person` events with a face-recognition answer and `car` events with a plate
recognised from the snapshot name. Alerts are throttled to one per identity
per hour. A separate generator merges the general configuration document and
the per-camera documents into one text. The model covers four pieces of
sequential logic:

- `Utils` (utils.py): the check-and-stamp throttle `ShouldNotify`. It is a
  method of a class `LastNotified` that owns the table of last-notification
  times, the dictionary the source updates in place. The module also has the
  face adapter (`CheckFace`, with the selection loop `SelectSubject`) and the
  plate adapter (`CheckPlate`).
- `EventListener` (event_listener.py): the dispatcher `OnMessage`. It is a
  method of a class `Listener` that holds the known plates, the API key, the
  throttle table and the sequence of notifications sent so far. The
  function `Pending` gives the notification a message asks for before the
  throttle is consulted. `OnMessage` is proved to match `Pending` plus one
  check-and-stamp.
- `GenerateConfig` (generate_config.py): how `main` builds the combined text.
  The general text is right-stripped and followed by the `cameras:` key. Then
  comes the fragment of every camera file, in sorted path order. A fragment
  is the file's right-stripped lines, non-blank lines indented by two spaces,
  joined and closed by a newline. An un-indent round trip is proved.
- `Wrappers`: the `Option` type that stands for Python's `None`.

Inputs the source reads from the environment are parameters of the model:
- time: an integer `now`;
- the known-plate table: a set of plate strings;
- the API key: a string;
- the recognition service: a function from a snapshot URL to an optional
  list of faces, where None stands for any failed download or call;
- the decoded message: an optional record, where None stands for a failed
  decode;
- the general and camera documents: strings.

Plate notifications use the category `'matrícula'`.

## Model

| member | source | states |
|---|---|---|
| Utils.FirstSubjectAt | utils.py:63-67 | if face `k` is the first face with a non-empty candidate list, the selection answers the `subject` of that face's first candidate |
| Utils.FirstSubjectNone | utils.py:63-68 | when no face has candidates, the selection answers None |
| Utils.FirstSubjectSome | utils.py:63-67 | a name is only ever taken from the first candidate of the first face that has candidates |
| Utils.SelectSubject | utils.py:63-68 | the loop with early return computes exactly the reference selection `FirstSubject` |
| Utils.CheckFace | utils.py:48-71 | with an empty API key the answer is None whatever the service would say; when the service fails the answer is None; otherwise it is the selection over the returned faces |
| Utils.Basename | utils.py:92 | the result is the longest suffix of the path that contains no '/': it is a suffix, has no '/', and is the whole path or follows a '/' |
| Utils.BeforeFirstDot | utils.py:92 | the result is the longest prefix that contains no '.': it is a prefix, has no '.', and is the whole text or is followed by a '.' |
| Utils.PlateCandidate | utils.py:92 | the candidate plate contains neither '/' nor '.' and is the part of the basename before the first '.' |
| Utils.CheckPlate | utils.py:91-96 | the adapter answers Some exactly when the candidate is a known plate, and then it answers that candidate, which is a key of the known-plate table |
| Utils.BasenameAfterSlash | utils.py:92 | the basename of `dir + "/" + name` is `name` when `name` contains no '/' |
| Utils.BeforeFirstDotStem | utils.py:92 | cutting `stem + ext` at the first '.' gives `stem` when the stem has no '.' and the extension is empty or starts with '.' |
| Utils.CheckPlateOfSnapshotName | utils.py:89-96 | a snapshot named `<plate><ext>` under any directory is recognised as `plate` if the plate is known, and gives None otherwise |
| Utils.Stamped | utils.py:116-120 | after a check-and-stamp, an identifier the throttle lets through maps to `now`; a refused check leaves the table unchanged; the key set grows by at most the identifier; every other key keeps its value |
| Utils.CooldownWindow | utils.py:115-119 | a first check of an identifier at `t` is let through, and a second check at `t + d` is let through exactly when `d >= 3600` |
| Utils.StampedMonotone | utils.py:115-118 | if the clock never goes backwards, no stamp exceeds `now` and no identifier's stamp decreases |
| Utils.LastNotified.ShouldNotify | utils.py:101-120 | returns true exactly when the identifier is absent or `now - last >= 3600`; on true only the identifier's entry changes, to `now`; on false the table is unchanged |
| EventListener.SnapshotUrl | event_listener.py:72-74 | a URL exists exactly when the snapshot path is present and non-empty, and it is `"http://frigate:5000"` followed by the path |
| EventListener.Pending | event_listener.py:56-93 | a notification is requested only for a decoded "new" message with a snapshot and label person or car, and carries the event's camera; a person always gets a `persoa` notification under the recognised name or the placeholder; a car gets a `matrícula` notification exactly when the plate adapter answers a non-empty plate, and its identifier is that answered plate, which is a known plate |
| EventListener.UnknownPersonPlaceholder | event_listener.py:79-84 | a person with no recognised name, None or empty, is notified under `"descoñecido_" + event id` |
| EventListener.NoSnapshotUrlNoLookup | event_listener.py:72-74 | without a snapshot URL the outcome does not depend on the API key, the known plates or the recognition service, so no adapter is consulted; a car is then dropped |
| EventListener.KnownPlateNotified | event_listener.py:86-93 | a car whose snapshot file is named after a known plate is notified once with category `matrícula`, the event's camera and that plate; an unknown plate gives no notification |
| EventListener.Listener.constructor | event_listener.py:38 | the dispatcher starts with an empty throttle table and no notifications sent |
| EventListener.Listener.NotifyUser | utils.py:123-131 | emitting an alert appends exactly one `(camera, category, identifier)` record to the output |
| EventListener.Listener.OnMessage | event_listener.py:54-93 | a message that fails to decode, is not "new" or has no snapshot changes nothing; at most one notification is appended per message; without a pending notification nothing changes; otherwise the throttle table is check-and-stamped under the pending identifier, and the notification is appended exactly when the throttle lets it through |
| GenerateConfig.RStripSpec | generate_config.py:49 | `rstrip` keeps a prefix, removes only whitespace, and what it keeps is empty or does not end in whitespace |
| GenerateConfig.Split | generate_config.py:61 | splitting on '\n' gives at least one piece and no piece contains '\n' |
| GenerateConfig.JoinSplit | generate_config.py:61-66 | joining the pieces of a split with '\n' gives the text back |
| GenerateConfig.SplitJoin | generate_config.py:61-66 | splitting a '\n'-join of newline-free lines gives the lines back |
| GenerateConfig.UnindentIndentLine | generate_config.py:62-65 | un-indenting an indented line restores it (blank lines are untouched both ways) |
| GenerateConfig.IndentLines | generate_config.py:60-65 | one output line per input line, in order; a blank line is kept as it is; every other line gets exactly two leading spaces |
| GenerateConfig.CameraFragment | generate_config.py:58-66 | the loop body computes the fragment of one camera document |
| GenerateConfig.FragmentShape | generate_config.py:58-66 | a fragment ends with '\n'; for a non-empty document, its lines are the document's lines, indented one by one, and there are as many of them |
| GenerateConfig.FragmentRoundTrip | generate_config.py:58-66 | removing the two-space indentation from a fragment recovers the right-stripped camera document |
| GenerateConfig.Insert | generate_config.py:55 | insertion adds exactly the new file: the multiset of files grows by it and the length by one |
| GenerateConfig.InsertSorted | generate_config.py:55 | inserting into a path-sorted list keeps it sorted |
| GenerateConfig.SortByPathSpec | generate_config.py:55 | `sorted` yields a permutation of the camera files in path order |
| GenerateConfig.SortedByPathPairs | generate_config.py:55 | in a sorted list every path is at most every later path in code-point order |
| GenerateConfig.CombinedStartsWithHeader | generate_config.py:49-52 | the combined text starts with the right-stripped general text followed by `"\n\ncameras:\n"` |
| GenerateConfig.EveryCameraIncluded | generate_config.py:55-66 | there is one fragment per camera file, and every camera file's fragment is among them |
| GenerateConfig.Combine | generate_config.py:49-66 | the loop builds exactly the header followed by the fragments of the camera files in sorted path order |

## Left out

- MQTT plumbing: `on_connect`, `main` and `loop_forever` are client setup and callback registration. They are I/O with no decision logic.
- `json.loads` of the payload is a library parser. The model starts from its result, where None means the decode failed. A decoded payload that is not an object makes the source raise inside the callback before any state changes. The model treats it like a failed decode.
- The fields of the payload are modelled as optional strings and a boolean `has_snapshot` (its truthiness). A missing `after` behaves like `has_snapshot` false. Fields of other JSON types are not modelled. The event id is rendered as in the f-string (a missing id prints as `None`), but only for string or missing ids.
- The HTTP calls of `check_face` are foreign network calls: the download, the recognition POST, `raise_for_status` and `r.json()`. They become the optional response, and every failure collapses to None. A candidate whose `subject` is not a string is not modelled.
- Loading `known_plates.json` at import time and the environment configuration are I/O. They become a set of plate strings and an API key given to the `Listener` constructor.
- `time.time()` returns a float. Time is an integer parameter, so sub-second differences near the cooldown boundary are not modelled.
- `notify_user` formats a `datetime` timestamp and prints a line. The model records `(camera, category, identifier)` and leaves out the timestamp and the text.
- `print` logging in every file is output only.
- Reading `general.yml` and the camera files, `glob` and `os.path` joining are file I/O. The model takes the general text and a list of `(path, text)` camera files.
- `yaml.safe_load` and `yaml.dump` are a library. Parsing the combined text is not modelled, so the structural YAML round trip is not stated.
- GenerateConfig.Split: `str.splitlines` also breaks lines at '\r', "\r\n", '\v', '\f', '\x1c'–'\x1e', '\x85', U+2028 and U+2029. The model splits at '\n' only. Whitespace for `strip`/`rstrip` is the full set of characters Python's `str.isspace` accepts.
- GenerateConfig.FragmentShape: the line count is only stated for a camera document that is not empty after right-stripping. An empty document yields the fragment "\n", one empty line for zero source lines.
- Concurrency: the dispatcher runs one message at a time, so the check-and-stamp needs no locking and none is modelled.
