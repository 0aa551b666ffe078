/**
 * Helpers shared by the automation scripts: interpretation of a face
 * recognition response, the placeholder plate recogniser, the per-identity
 * notification throttle and the notifier's output record.
 */
module Utils {
  import opened Wrappers

  /** Minimum number of seconds between two notifications for one identifier. */
  const NotificationCooldown: int := 3600

  // ---------------------------------------------------------------------
  // Face recognition: selecting the answer from a recognition response
  // ---------------------------------------------------------------------

  /** One ranked candidate of a face; `subject` is None when the response omits the key. */
  datatype Candidate = Candidate(subject: Option<string>)

  /** One detected face with its ranked candidates (a missing list is empty). */
  datatype Face = Face(subjects: seq<Candidate>)

  /** Reference definition: the subject of the top candidate of the first face that has candidates. */
  function FirstSubject(faces: seq<Face>): Option<string>
  {
    if faces == [] then None
    else if faces[0].subjects != [] then faces[0].subjects[0].subject
    else FirstSubject(faces[1..])
  }

  /** `k` is the position of the first face whose candidate list is not empty. */
  ghost predicate IsFirstWithSubjects(faces: seq<Face>, k: int)
  {
    && 0 <= k < |faces|
    && faces[k].subjects != []
    && forall j :: 0 <= j < k ==> faces[j].subjects == []
  }

  /** The selection answers with the top candidate of the first face that has candidates. */
  lemma {:induction false} FirstSubjectAt(faces: seq<Face>, k: int)
    requires IsFirstWithSubjects(faces, k)
    ensures FirstSubject(faces) == faces[k].subjects[0].subject
  {
    if k > 0 {
      assert faces[0].subjects == [];
      FirstSubjectAt(faces[1..], k - 1);
    }
  }

  /** Without any face that has candidates the selection answers None. */
  lemma {:induction false} FirstSubjectNone(faces: seq<Face>)
    requires forall i :: 0 <= i < |faces| ==> faces[i].subjects == []
    ensures FirstSubject(faces) == None
  {
    if faces != [] {
      FirstSubjectNone(faces[1..]);
    }
  }

  /** A name is only ever taken from the first face that has candidates. */
  lemma {:induction false} FirstSubjectSome(faces: seq<Face>)
    requires FirstSubject(faces).Some?
    ensures exists k :: IsFirstWithSubjects(faces, k) && faces[k].subjects[0].subject == FirstSubject(faces)
  {
    if faces[0].subjects != [] {
      assert IsFirstWithSubjects(faces, 0);
    } else {
      FirstSubjectSome(faces[1..]);
      var k :| IsFirstWithSubjects(faces[1..], k) && faces[1..][k].subjects[0].subject == FirstSubject(faces[1..]);
      assert IsFirstWithSubjects(faces, k + 1);
    }
  }

  /** The loop over `data['result']` with its early return. */
  method SelectSubject(faces: seq<Face>) returns (name: Option<string>)
    ensures name == FirstSubject(faces)
  {
    var i := 0;
    while i < |faces|
      invariant 0 <= i <= |faces|
      invariant FirstSubject(faces[i..]) == FirstSubject(faces)
    {
      if faces[i].subjects != [] {
        return faces[i].subjects[0].subject;
      }
      assert faces[i..][1..] == faces[i + 1..];
      i := i + 1;
    }
    return None;
  }

  /** What the face adapter answers, given the API key and the service's response
      (None stands for any failure of the download or of the recognition call). */
  function RecognizedName(apiKey: string, response: Option<seq<Face>>): Option<string>
  {
    if apiKey == [] then None
    else if response.None? then None
    else FirstSubject(response.value)
  }

  /** The face adapter: no answer without an API key, no answer when the service fails,
      otherwise the selection over the faces of the response. */
  method CheckFace(apiKey: string, response: Option<seq<Face>>) returns (name: Option<string>)
    ensures name == RecognizedName(apiKey, response)
    ensures apiKey == [] ==> name == None
    ensures response.None? ==> name == None
    ensures apiKey != [] && response.Some? ==> name == FirstSubject(response.value)
  {
    if apiKey == [] {
      return None;
    }
    if response.None? {
      return None;
    }
    name := SelectSubject(response.value);
  }

  // ---------------------------------------------------------------------
  // Plate recognition placeholder: the plate is taken from the file name
  // ---------------------------------------------------------------------

  /** POSIX basename: the longest suffix of `path` that holds no '/'. */
  function Basename(path: string): (b: string)
    ensures '/' !in b
    ensures |b| <= |path| && b == path[|path| - |b|..]
    ensures |b| < |path| ==> path[|path| - |b| - 1] == '/'
  {
    if path == [] then []
    else if path[|path| - 1] == '/' then []
    else Basename(path[..|path| - 1]) + [path[|path| - 1]]
  }

  /** `s.split('.')[0]`: the longest prefix of `s` that holds no '.'. */
  function BeforeFirstDot(s: string): (c: string)
    ensures '.' !in c
    ensures |c| <= |s| && c == s[..|c|]
    ensures |c| < |s| ==> s[|c|] == '.'
  {
    if s == [] then []
    else if s[0] == '.' then []
    else [s[0]] + BeforeFirstDot(s[1..])
  }

  /** The plate text derived from a snapshot URL. */
  function PlateCandidate(url: string): (c: string)
    ensures '/' !in c && '.' !in c
    ensures c == BeforeFirstDot(Basename(url))
  {
    var b := Basename(url);
    var c := BeforeFirstDot(b);
    assert forall i :: 0 <= i < |c| ==> c[i] == b[i];
    c
  }

  /** The plate adapter: the candidate is accepted only when it is a known plate. */
  function CheckPlate(url: string, knownPlates: set<string>): (plate: Option<string>)
    ensures plate.Some? <==> PlateCandidate(url) in knownPlates
    ensures plate.Some? ==> plate.value == PlateCandidate(url) && plate.value in knownPlates
  {
    var candidate := PlateCandidate(url);
    if candidate in knownPlates then Some(candidate) else None
  }

  /** The basename only looks at what follows the last '/'. */
  lemma {:induction false} BasenameAfterSlash(dir: string, name: string)
    requires '/' !in name
    ensures Basename(dir + "/" + name) == name
  {
    if name == [] {
      assert (dir + "/" + name)[|dir + "/" + name| - 1] == '/';
    } else {
      var init := name[..|name| - 1];
      assert (dir + "/" + name)[..|dir + "/" + name| - 1] == dir + "/" + init;
      BasenameAfterSlash(dir, init);
      assert init + [name[|name| - 1]] == name;
    }
  }

  /** Cutting at the first '.' keeps exactly a dot-free stem. */
  lemma {:induction false} BeforeFirstDotStem(stem: string, ext: string)
    requires '.' !in stem
    requires ext == [] || ext[0] == '.'
    ensures BeforeFirstDot(stem + ext) == stem
  {
    if stem == [] {
      assert stem + ext == ext;
    } else {
      assert (stem + ext)[1..] == stem[1..] + ext;
      BeforeFirstDotStem(stem[1..], ext);
    }
  }

  /** A snapshot named `<plate><ext>` is recognised as `plate` exactly when the plate is known. */
  lemma CheckPlateOfSnapshotName(dir: string, plate: string, ext: string, knownPlates: set<string>)
    requires '/' !in plate && '.' !in plate
    requires ext == [] || (ext[0] == '.' && '/' !in ext)
    ensures CheckPlate(dir + "/" + (plate + ext), knownPlates) == if plate in knownPlates then Some(plate) else None
  {
    assert '/' !in plate + ext;
    BasenameAfterSlash(dir, plate + ext);
    BeforeFirstDotStem(plate, ext);
  }

  // ---------------------------------------------------------------------
  // Notification throttle
  // ---------------------------------------------------------------------

  /** The throttle lets `identifier` through at `now`: never seen, or the cooldown has elapsed. */
  predicate Allows(lastNotified: map<string, int>, identifier: string, now: int)
  {
    identifier !in lastNotified || now - lastNotified[identifier] >= NotificationCooldown
  }

  /** The throttle table after one check-and-stamp of `identifier` at `now`. */
  function Stamped(lastNotified: map<string, int>, identifier: string, now: int): (m: map<string, int>)
    ensures Allows(lastNotified, identifier, now) ==> identifier in m && m[identifier] == now
    ensures !Allows(lastNotified, identifier, now) ==> m == lastNotified
    ensures m.Keys == lastNotified.Keys + {identifier} || m.Keys == lastNotified.Keys
    ensures forall k :: k in lastNotified && k != identifier ==> k in m && m[k] == lastNotified[k]
    ensures forall k :: k in m && k != identifier ==> k in lastNotified
  {
    if Allows(lastNotified, identifier, now) then lastNotified[identifier := now] else lastNotified
  }

  /** A first check of an identifier at `t` stamps it, and a second check `d` seconds
      later is let through exactly when `d` reaches the cooldown. */
  lemma CooldownWindow(lastNotified: map<string, int>, identifier: string, t: int, d: int)
    requires identifier !in lastNotified
    ensures Allows(lastNotified, identifier, t)
    ensures Allows(Stamped(lastNotified, identifier, t), identifier, t + d) <==> d >= NotificationCooldown
  {
  }

  /** With a clock that never goes backwards, every stamp stays at most `now`
      and no identifier's stamp decreases. */
  lemma StampedMonotone(lastNotified: map<string, int>, identifier: string, now: int)
    requires forall k :: k in lastNotified ==> lastNotified[k] <= now
    ensures var m := Stamped(lastNotified, identifier, now);
      && (forall k :: k in m ==> m[k] <= now)
      && (forall k :: k in lastNotified ==> lastNotified[k] <= m[k])
  {
  }

  /** The process-wide table of last notification times (a dictionary updated in place). */
  class LastNotified {
    var times: map<string, int>

    constructor ()
      ensures times == map[]
    {
      times := map[];
    }

    /** Check-and-stamp: let `identifier` through and stamp it with `now`, or refuse and change nothing. */
    method ShouldNotify(identifier: string, now: int) returns (notify: bool)
      modifies this
      ensures notify == Allows(old(times), identifier, now)
      ensures notify <==> identifier !in old(times) || now - old(times)[identifier] >= NotificationCooldown
      ensures notify ==> times == old(times)[identifier := now]
      ensures !notify ==> times == old(times)
      ensures times == Stamped(old(times), identifier, now)
    {
      if identifier !in times || now - times[identifier] >= NotificationCooldown {
        times := times[identifier := now];
        return true;
      }
      return false;
    }
  }

  // ---------------------------------------------------------------------
  // Notifier
  // ---------------------------------------------------------------------

  /** One emitted alert: the camera, the kind of detection and the identifier. */
  datatype Notification = Notification(camera: Option<string>, category: string, identifier: string)
}
