/**
 * The event dispatcher subscribed to the NVR's event topic: it filters
 * detection events, classifies them by label, asks the face or plate
 * adapter for an identity and notifies through the throttle.
 */
module EventListener {
  import opened Wrappers
  import opened Utils

  /** Base of the snapshot host; the event's relative path is appended to it. */
  const FrigateBase: string := "http://frigate:5000"
  const PersonCategory: string := "persoa"
  const PlateCategory: string := "matrícula"
  /** Prefix of the placeholder identity of an unrecognised person. */
  const UnknownPrefix: string := "descoñecido_"

  /** The `after` document of an event; a missing field is None (a missing
      `has_snapshot`, like any falsy value, is false). */
  datatype Event = Event(
    objectLabel: Option<string>,
    camera: Option<string>,
    id: Option<string>,
    hasSnapshot: bool,
    snapshotPath: Option<string>)

  /** A decoded message: its `type` field and its `after` document. */
  datatype Payload = Payload(kind: Option<string>, after: Event)

  /** The message survives the filters before classification: it decoded,
      it is of type "new" and it has a snapshot. */
  predicate Accepted(payload: Option<Payload>)
  {
    payload.Some? && payload.value.kind == Some("new") && payload.value.after.hasSnapshot
  }

  /** The URL of the snapshot, built only from a non-empty path. */
  function SnapshotUrl(path: Option<string>): (url: Option<string>)
    ensures url.Some? <==> path.Some? && path.value != []
    ensures url.Some? ==> url.value == FrigateBase + path.value
  {
    if path.Some? && path.value != [] then Some(FrigateBase + path.value) else None
  }

  /** How an f-string renders an event id (a missing one prints as "None"). */
  function IdText(id: Option<string>): string
  {
    if id.Some? then id.value else "None"
  }

  /** The throttle key of a person: the recognised name when it is a non-empty
      string, else a placeholder unique to the event. */
  function PersonIdentifier(name: Option<string>, eventId: Option<string>): string
  {
    if name.Some? && name.value != [] then name.value else UnknownPrefix + IdText(eventId)
  }

  /** The face adapter's answer for an event: only consulted when there is a snapshot URL. */
  function FaceAnswer(e: Event, apiKey: string, recognize: string -> Option<seq<Face>>): Option<string>
  {
    var url := SnapshotUrl(e.snapshotPath);
    if url.Some? then RecognizedName(apiKey, recognize(url.value)) else None
  }

  /** The plate adapter's answer for an event: only consulted when there is a snapshot URL. */
  function PlateAnswer(e: Event, knownPlates: set<string>): Option<string>
  {
    var url := SnapshotUrl(e.snapshotPath);
    if url.Some? then CheckPlate(url.value, knownPlates) else None
  }

  /** The notification a message asks for, before the throttle is consulted. */
  function Pending(payload: Option<Payload>, apiKey: string, knownPlates: set<string>,
                   recognize: string -> Option<seq<Face>>): (n: Option<Notification>)
    ensures n.Some? ==> Accepted(payload)
    ensures n.Some? ==> payload.value.after.objectLabel in {Some("person"), Some("car")}
    ensures n.Some? ==> n.value.camera == payload.value.after.camera
    ensures Accepted(payload) && payload.value.after.objectLabel == Some("person") ==>
      n == Some(Notification(payload.value.after.camera, PersonCategory,
                             PersonIdentifier(FaceAnswer(payload.value.after, apiKey, recognize), payload.value.after.id)))
    ensures n.Some? && payload.value.after.objectLabel == Some("car") ==>
      n.value.category == PlateCategory && n.value.identifier in knownPlates && n.value.identifier != []
    ensures Accepted(payload) && payload.value.after.objectLabel == Some("car") && n.Some? ==>
      var plate := PlateAnswer(payload.value.after, knownPlates);
      plate.Some? && n == Some(Notification(payload.value.after.camera, PlateCategory, plate.value))
    ensures Accepted(payload) && payload.value.after.objectLabel == Some("car") ==>
      (n.Some? <==> var plate := PlateAnswer(payload.value.after, knownPlates); plate.Some? && plate.value != [])
  {
    if !Accepted(payload) then None
    else
      var e := payload.value.after;
      if e.objectLabel == Some("person") then
        Some(Notification(e.camera, PersonCategory, PersonIdentifier(FaceAnswer(e, apiKey, recognize), e.id)))
      else if e.objectLabel == Some("car") then
        var plate := PlateAnswer(e, knownPlates);
        if plate.Some? && plate.value != [] then Some(Notification(e.camera, PlateCategory, plate.value)) else None
      else None
  }

  /** A person with no recognised name is notified under the event's placeholder identity. */
  lemma UnknownPersonPlaceholder(payload: Option<Payload>, apiKey: string, knownPlates: set<string>,
                                 recognize: string -> Option<seq<Face>>)
    requires Accepted(payload) && payload.value.after.objectLabel == Some("person")
    requires var name := FaceAnswer(payload.value.after, apiKey, recognize); name.None? || name.value == []
    ensures Pending(payload, apiKey, knownPlates, recognize)
      == Some(Notification(payload.value.after.camera, PersonCategory, UnknownPrefix + IdText(payload.value.after.id)))
  {
  }

  /** Without a snapshot URL neither adapter is consulted: the outcome does not depend on
      the API key, the known plates or the recognition service. */
  lemma NoSnapshotUrlNoLookup(payload: Option<Payload>, apiKey1: string, apiKey2: string,
                              knownPlates1: set<string>, knownPlates2: set<string>,
                              recognize1: string -> Option<seq<Face>>, recognize2: string -> Option<seq<Face>>)
    requires payload.Some? && SnapshotUrl(payload.value.after.snapshotPath).None?
    ensures Pending(payload, apiKey1, knownPlates1, recognize1) == Pending(payload, apiKey2, knownPlates2, recognize2)
    ensures payload.value.after.objectLabel == Some("car") ==> Pending(payload, apiKey1, knownPlates1, recognize1).None?
  {
  }

  /** A car whose snapshot is named after a known plate is notified under that plate. */
  lemma KnownPlateNotified(payload: Option<Payload>, dir: string, plate: string, ext: string,
                           apiKey: string, knownPlates: set<string>, recognize: string -> Option<seq<Face>>)
    requires Accepted(payload) && payload.value.after.objectLabel == Some("car")
    requires payload.value.after.snapshotPath == Some(dir + "/" + plate + ext)
    requires '/' !in plate && '.' !in plate && plate != []
    requires ext == [] || (ext[0] == '.' && '/' !in ext)
    ensures Pending(payload, apiKey, knownPlates, recognize)
      == if plate in knownPlates then Some(Notification(payload.value.after.camera, PlateCategory, plate)) else None
  {
    var e := payload.value.after;
    SnapshotUrlOfPath(dir, plate + ext);
    assert dir + "/" + plate + ext == dir + "/" + (plate + ext);
    var url := (FrigateBase + dir) + "/" + (plate + ext);
    assert SnapshotUrl(e.snapshotPath) == Some(url);
    CheckPlateOfSnapshotName(FrigateBase + dir, plate, ext, knownPlates);
    assert PlateAnswer(e, knownPlates) == CheckPlate(url, knownPlates);
  }

  lemma SnapshotUrlOfPath(dir: string, name: string)
    ensures FrigateBase + (dir + "/" + name) == (FrigateBase + dir) + "/" + name
  {
  }

  /** The dispatcher with its state: the throttle table and the notifications sent so far. */
  class Listener {
    const knownPlates: set<string>
    const apiKey: string
    const lastNotified: LastNotified
    var sent: seq<Notification>

    constructor (knownPlates: set<string>, apiKey: string)
      ensures this.knownPlates == knownPlates && this.apiKey == apiKey
      ensures fresh(lastNotified) && lastNotified.times == map[] && sent == []
    {
      this.knownPlates := knownPlates;
      this.apiKey := apiKey;
      lastNotified := new LastNotified();
      sent := [];
    }

    /** The notifier: emits one alert. */
    method NotifyUser(camera: Option<string>, category: string, identifier: string)
      modifies this
      ensures sent == old(sent) + [Notification(camera, category, identifier)]
    {
      sent := sent + [Notification(camera, category, identifier)];
    }

    /** Handles one message. `payload` is None when the message did not decode;
        `recognize` gives the recognition service's response for a snapshot URL. */
    method OnMessage(payload: Option<Payload>, recognize: string -> Option<seq<Face>>, now: int)
      modifies this, lastNotified
      ensures !Accepted(payload) ==> sent == old(sent) && lastNotified.times == old(lastNotified.times)
      ensures |old(sent)| <= |sent| <= |old(sent)| + 1 && sent[..|old(sent)|] == old(sent)
      ensures var n := Pending(payload, apiKey, knownPlates, recognize);
        && (n.None? ==> sent == old(sent) && lastNotified.times == old(lastNotified.times))
        && (n.Some? ==>
              && lastNotified.times == Stamped(old(lastNotified.times), n.value.identifier, now)
              && sent == old(sent) + if Allows(old(lastNotified.times), n.value.identifier, now) then [n.value] else [])
    {
      if payload.None? {
        return;
      }
      var p := payload.value;
      if p.kind != Some("new") {
        return;
      }
      var after := p.after;
      if !after.hasSnapshot {
        return;
      }
      var snapshotUrl: Option<string> := None;
      if after.snapshotPath.Some? && after.snapshotPath.value != [] {
        snapshotUrl := Some(FrigateBase + after.snapshotPath.value);
      }
      if after.objectLabel == Some("person") {
        var personName: Option<string> := None;
        if snapshotUrl.Some? {
          personName := CheckFace(apiKey, recognize(snapshotUrl.value));
        }
        var identifier := if personName.Some? && personName.value != [] then personName.value
                          else UnknownPrefix + IdText(after.id);
        var notify := lastNotified.ShouldNotify(identifier, now);
        if notify {
          NotifyUser(after.camera, PersonCategory, identifier);
        }
      } else if after.objectLabel == Some("car") {
        var plateText: Option<string> := None;
        if snapshotUrl.Some? {
          plateText := CheckPlate(snapshotUrl.value, knownPlates);
        }
        if plateText.Some? && plateText.value != [] {
          var identifier := plateText.value;
          var notify := lastNotified.ShouldNotify(identifier, now);
          if notify {
            NotifyUser(after.camera, PlateCategory, plateText.value);
          }
        }
      }
    }
  }
}
