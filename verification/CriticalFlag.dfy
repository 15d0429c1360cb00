/** The halt flag: a file whose presence keeps the poller halted, read fail-closed, except that a throttle
    flag clears itself once its deadline has passed. */
module CriticalFlag {
  import opened Values
  import RateLimitClock

  datatype Source = Agent | PostDispatchCheck | IssuesDbMirror | BootMigrationSweep | Throttle | Entrypoint | Unparseable

  datatype Payload = Payload(
    timestamp: string, source: Source, dispatchId: string, reason: string,
    cardId: Option<string>, cardUrl: Option<string>, detail: Option<string>,
    resumeAt: Option<string>, rateLimitKind: bool)

  /** A property of the parsed object. */
  datatype Field = Absent | NotAString | Text(text: string)

  /** What the file holds: nothing that can be read as JSON, JSON that is no object, or an object.
      `source` is Some for one of the seven known strings. */
  datatype Content =
    | NoJson
    | NoObject
    | Fields(
        source: Option<Source>, timestamp: Field, dispatchId: Field, reason: Field,
        cardId: Field, cardUrl: Field, detail: Field, resumeAt: Field, rateLimitKind: bool)

  /** Date.parse and toISOString. */
  datatype Dates = Dates(parse: string -> Option<int>, iso: int -> string)

  ghost predicate Faithful(dates: Dates) {
    forall t :: dates.iso(t) != "" && dates.parse(dates.iso(t)) == Some(t)
  }

  predicate Filled(f: Field) {
    f.Text? && f.text != ""
  }

  function Optional(f: Field): Option<string> {
    if Filled(f) then Some(f.text) else None
  }

  function Normalize(dates: Dates, c: Content): Option<Payload> {
    if !c.Fields? || c.source.None? then None
    else if !Filled(c.timestamp) || !Filled(c.dispatchId) || !Filled(c.reason) then None
    else if c.source == Some(Throttle) then
      if !Filled(c.resumeAt) || dates.parse(c.resumeAt.text).None? then None
      else Some(Payload(c.timestamp.text, Throttle, c.dispatchId.text, c.reason.text,
                        Optional(c.cardId), Optional(c.cardUrl), Optional(c.detail), Some(c.resumeAt.text), c.rateLimitKind))
    else if !c.resumeAt.Absent? then None
    else Some(Payload(c.timestamp.text, c.source.value, c.dispatchId.text, c.reason.text,
                      Optional(c.cardId), Optional(c.cardUrl), Optional(c.detail), None, false))
  }

  const UNPARSEABLE_REASON := "Critical-failure flag file present but unparseable — operator must investigate"

  /** `detail` names the path in the source; that text is left out here. */
  function UnparseablePayload(dates: Dates, now: int): Payload {
    Payload(dates.iso(now), Unparseable, "unparseable", UNPARSEABLE_REASON, None, None, Some("unparseable"), None, false)
  }

  predicate Expired(dates: Dates, p: Payload, now: int) {
    p.source == Throttle && Truthy(p.resumeAt) && dates.parse(p.resumeAt.value).Some? && now >= dates.parse(p.resumeAt.value).value
  }

  /** What a read at `now` returns. */
  function ReadResult(dates: Dates, file: Option<Content>, now: int): Option<Payload> {
    if file.None? then None else
      var p := Normalize(dates, file.value);
      if p.None? then Some(UnparseablePayload(dates, now))
      else if Expired(dates, p.value, now) then None
      else p
  }

  /** What a read at `now` leaves behind. */
  function FileAfterRead(dates: Dates, file: Option<Content>, now: int, unlinkFails: bool): Option<Content> {
    if ReadResult(dates, file, now).None? && !unlinkFails then None else file
  }

  /** What the writer is handed: the timestamp may be left to it. */
  datatype Request = Request(
    timestamp: Option<string>, source: Source, dispatchId: string, reason: string,
    cardId: Option<string>, cardUrl: Option<string>, detail: Option<string>, resumeAt: Option<string>, rateLimitKind: bool)

  datatype Written = Persisted(payload: Payload) | Refused

  function Final(dates: Dates, r: Request, now: int): Payload {
    Payload(if r.timestamp.Some? then r.timestamp.value else dates.iso(now), r.source, r.dispatchId, r.reason,
            r.cardId, r.cardUrl, r.detail, if Truthy(r.resumeAt) then r.resumeAt else None, r.rateLimitKind)
  }

  function AsField(s: Option<string>): Field {
    if s.Some? then Text(s.value) else Absent
  }

  /** The object as it comes back from disk: properties without a value are not written. */
  function OnDisk(p: Payload): Content {
    Fields(Some(p.source), Text(p.timestamp), Text(p.dispatchId), Text(p.reason),
           AsField(p.cardId), AsField(p.cardUrl), AsField(p.detail), AsField(p.resumeAt), p.rateLimitKind)
  }

  class FlagFile {
    const dates: Dates
    var file: Option<Content>

    constructor (dates: Dates, file: Option<Content>)
      ensures this.dates == dates && this.file == file
    {
      this.dates, this.file := dates, file;
    }

    method ReadFlag(now: int, unlinkFails: bool) returns (payload: Option<Payload>)
      modifies this
      ensures payload == ReadResult(dates, old(file), now)
      ensures file == FileAfterRead(dates, old(file), now, unlinkFails)
    {
      if file.None? { return None; }
      var normalized := Normalize(dates, file.value);
      if normalized.None? {
        return Some(UnparseablePayload(dates, now));
      }
      if normalized.value.source == Throttle && Truthy(normalized.value.resumeAt) {
        var resumeMs := dates.parse(normalized.value.resumeAt.value);
        if resumeMs.Some? && now >= resumeMs.value {
          if !unlinkFails { file := None; }
          return None;
        }
      }
      payload := normalized;
    }

    method WriteFlag(r: Request, now: int) returns (written: Written)
      modifies this
      ensures written.Refused? <==> (r.source == Throttle) != Truthy(r.resumeAt)
      ensures written.Refused? ==> file == old(file)
      ensures written.Persisted? ==> written.payload == Final(dates, r, now) && file == Some(OnDisk(written.payload))
    {
      var payload := Final(dates, r, now);
      if payload.source == Throttle && !Truthy(payload.resumeAt) { return Refused; }
      if payload.source != Throttle && Truthy(payload.resumeAt) { return Refused; }
      file := Some(OnDisk(payload));
      written := Persisted(payload);
    }

    method ClearFlag() returns (existed: bool)
      modifies this
      ensures file == None && existed == old(file).Some?
    {
      existed := file.Some?;
      file := None;
    }
  }

  // ----- Fail-closed -----

  /** A complete throttle payload whose deadline is an instant. */
  predicate WellformedThrottle(dates: Dates, c: Content) {
    && c.Fields? && c.source == Some(Throttle)
    && Filled(c.timestamp) && Filled(c.dispatchId) && Filled(c.reason) && Filled(c.resumeAt)
    && dates.parse(c.resumeAt.text).Some?
  }

  /** Whatever the file holds, a read takes it for absent only when it is a well-formed throttle whose
      deadline has passed. */
  lemma AbsentOnlyWhenExpired(dates: Dates, c: Content, now: int)
    ensures ReadResult(dates, Some(c), now).None? <==> WellformedThrottle(dates, c) && dates.parse(c.resumeAt.text).value <= now
  {
  }

  /** The text of a property that holds one. */
  predicate Says(f: Field, text: string) {
    f == Text(text) && text != ""
  }

  /** A property taken over when it holds a text that is not empty, and left out otherwise. */
  predicate TakenOver(f: Field, value: Option<string>) {
    value == if f.Text? && f.text != "" then Some(f.text) else None
  }

  /** A readable flag that is no throttle: the required texts are there and there is no resume time. */
  predicate WellformedHalt(c: Content) {
    && c.Fields? && c.source.Some? && c.source != Some(Throttle) && c.resumeAt.Absent?
    && (c.timestamp.Text? && c.timestamp.text != "") && (c.dispatchId.Text? && c.dispatchId.text != "")
    && (c.reason.Text? && c.reason.text != "")
  }

  /** The payload is what the file says, property by property. */
  predicate SaysSo(c: Content, p: Payload) {
    && c.Fields? && c.source == Some(p.source)
    && Says(c.timestamp, p.timestamp) && Says(c.dispatchId, p.dispatchId) && Says(c.reason, p.reason)
    && TakenOver(c.cardId, p.cardId) && TakenOver(c.cardUrl, p.cardUrl) && TakenOver(c.detail, p.detail)
  }

  /** What a read of any file returns: what the file says, if it is a readable halt or a throttle still to come, and a
      stand-in that halts as well, if it is neither. */
  lemma ReadReturns(dates: Dates, c: Content, now: int)
    ensures var r := ReadResult(dates, Some(c), now);
      && (WellformedHalt(c) ==> r.Some? && SaysSo(c, r.value) && r.value.resumeAt.None? && !r.value.rateLimitKind)
      && (WellformedThrottle(dates, c) && now < dates.parse(c.resumeAt.text).value ==>
            r.Some? && SaysSo(c, r.value) && r.value.resumeAt == Some(c.resumeAt.text) && r.value.rateLimitKind == c.rateLimitKind)
      && (!WellformedHalt(c) && !WellformedThrottle(dates, c) ==>
            && r.Some? && r.value.source == Unparseable && r.value.timestamp == dates.iso(now) && r.value.dispatchId == "unparseable"
            && r.value.reason == "Critical-failure flag file present but unparseable — operator must investigate"
            && r.value.cardId.None? && r.value.cardUrl.None? && r.value.resumeAt.None? && !r.value.rateLimitKind)
  {
  }

  // ----- Round trip -----

  /** Empty optional texts are dropped, and so is a throttle kind that belongs to no throttle. */
  function Cleaned(p: Payload): Payload {
    p.(cardId := if Truthy(p.cardId) then p.cardId else None,
       cardUrl := if Truthy(p.cardUrl) then p.cardUrl else None,
       detail := if Truthy(p.detail) then p.detail else None,
       rateLimitKind := p.rateLimitKind && p.source == Throttle)
  }

  predicate Complete(p: Payload) {
    p.timestamp != "" && p.dispatchId != "" && p.reason != ""
  }

  predicate Pending(dates: Dates, p: Payload, now: int) {
    p.source == Throttle ==> p.resumeAt.Some? && dates.parse(p.resumeAt.value).Some? && now < dates.parse(p.resumeAt.value).value
  }

  /** What was written is read back, cleaned, exactly when its required texts are filled in and, for a
      throttle, its deadline is an instant still to come. */
  lemma WrittenIsReadBackIff(dates: Dates, r: Request, writtenAt: int, now: int)
    requires Faithful(dates) && (r.source == Throttle) == Truthy(r.resumeAt)
    ensures var p := Final(dates, r, writtenAt);
            ReadResult(dates, Some(OnDisk(p)), now) == Some(Cleaned(p)) <==> Complete(p) && Pending(dates, p, now)
  {
    var p := Final(dates, r, writtenAt);
    assert dates.iso(now) != "";
    var back := Normalize(dates, OnDisk(p));
    if Complete(p) && (p.source == Throttle ==> dates.parse(p.resumeAt.value).Some?) {
      assert back == Some(Cleaned(p));
    } else {
      assert back.None?;
    }
  }

  /** A request whose texts are filled in. */
  predicate Filed(r: Request) {
    r.timestamp != Some("") && r.dispatchId != "" && r.reason != ""
  }

  /** The payload says what was asked for: the request's own texts and kind, its time or else the time of writing, and
      of the optional texts those that are not empty. */
  predicate AsAsked(dates: Dates, r: Request, writtenAt: int, p: Payload) {
    && p.source == r.source && p.dispatchId == r.dispatchId && p.reason == r.reason
    && p.timestamp == (if r.timestamp.Some? then r.timestamp.value else dates.iso(writtenAt))
    && p.cardId == (if r.cardId == Some("") then None else r.cardId) && p.cardUrl == (if r.cardUrl == Some("") then None else r.cardUrl)
    && p.detail == (if r.detail == Some("") then None else r.detail) && p.resumeAt == (if r.resumeAt == Some("") then None else r.resumeAt)
    && (p.rateLimitKind <==> r.rateLimitKind && r.source == Throttle)
  }

  /** An accepted request with its texts filled in is read back as asked, at once and, for a throttle, until its resume
      time. */
  lemma RequestIsReadBack(dates: Dates, r: Request, writtenAt: int, now: int)
    requires Faithful(dates) && (r.source == Throttle) == Truthy(r.resumeAt) && Filed(r)
    requires r.source == Throttle ==> dates.parse(r.resumeAt.value).Some? && now < dates.parse(r.resumeAt.value).value
    ensures var read := ReadResult(dates, Some(OnDisk(Final(dates, r, writtenAt))), now);
      read.Some? && AsAsked(dates, r, writtenAt, read.value)
  {
    assert dates.iso(writtenAt) != "";
    WrittenIsReadBackIff(dates, r, writtenAt, now);
  }

  // ----- A throttle made by the detector -----

  datatype Reading = Reading(now: int, unlinkFails: bool)

  function FileAfter(dates: Dates, file: Option<Content>, readings: seq<Reading>): Option<Content>
    decreases |readings|
  {
    if readings == [] then file else
      var n := |readings| - 1;
      FileAfterRead(dates, FileAfter(dates, file, readings[..n]), readings[n].now, readings[n].unlinkFails)
  }

  predicate Ordered(readings: seq<Reading>) {
    forall i, j :: 0 <= i < j < |readings| ==> readings[i].now <= readings[j].now
  }

  lemma {:induction false} ThrottleStays(dates: Dates, c: Content, readings: seq<Reading>)
    requires WellformedThrottle(dates, c) && Ordered(readings)
    ensures FileAfter(dates, Some(c), readings) == Some(c) ||
            (FileAfter(dates, Some(c), readings).None? && readings != [] && readings[|readings| - 1].now >= dates.parse(c.resumeAt.text).value)
    decreases |readings|
  {
    if readings != [] {
      var n := |readings| - 1;
      ThrottleStays(dates, c, readings[..n]);
      AbsentOnlyWhenExpired(dates, c, readings[n].now);
      if n > 0 { assert readings[n - 1].now <= readings[n].now; }
    }
  }

  /** The flag is gone exactly when some read at or past its deadline could remove the file. */
  lemma {:induction false} ThrottleGoesIff(dates: Dates, c: Content, readings: seq<Reading>)
    requires WellformedThrottle(dates, c)
    ensures FileAfter(dates, Some(c), readings) == Some(c) || FileAfter(dates, Some(c), readings).None?
    ensures FileAfter(dates, Some(c), readings).None? <==>
      exists k :: 0 <= k < |readings| && readings[k].now >= dates.parse(c.resumeAt.text).value && !readings[k].unlinkFails
    decreases |readings|
  {
    if readings != [] {
      var n := |readings| - 1;
      ThrottleGoesIff(dates, c, readings[..n]);
      AbsentOnlyWhenExpired(dates, c, readings[n].now);
      assert forall k :: 0 <= k < n ==> readings[..n][k] == readings[k];
      hide WellformedThrottle, ReadResult;
      if k :| 0 <= k < n && readings[..n][k].now >= dates.parse(c.resumeAt.text).value && !readings[..n][k].unlinkFails {
        assert readings[k] == readings[..n][k];
      }
    }
  }

  /** A throttle written for a classified rate limit: over any sequence of reads in time order, with unlinks
      failing or not, a read halts exactly until the reset, which is at most 24 hours after the error. */
  lemma ThrottleHaltsAtMostADay(dates: Dates, text: Option<RateLimitClock.ResetText>, zones: string -> Option<RateLimitClock.Zone>,
                                erredAt: int, r: Request, writtenAt: int, readings: seq<Reading>)
    requires Faithful(dates) && RateLimitClock.ClassifyApiError(true, text, zones, erredAt).RateLimit?
    requires r.source == Throttle && Complete(Final(dates, r, writtenAt))
    requires r.resumeAt == Some(dates.iso(RateLimitClock.ClassifyApiError(true, text, zones, erredAt).resumeAt))
    requires Ordered(readings) && readings != []
    ensures var resumeAt := RateLimitClock.ClassifyApiError(true, text, zones, erredAt).resumeAt;
            var n := |readings| - 1;
            var file := FileAfter(dates, Some(OnDisk(Final(dates, r, writtenAt))), readings[..n]);
            && erredAt < resumeAt <= erredAt + RateLimitClock.DAY
            && (ReadResult(dates, file, readings[n].now).Some? <==> readings[n].now < resumeAt)
  {
    var resumeAt := RateLimitClock.ClassifyApiError(true, text, zones, erredAt).resumeAt;
    var n := |readings| - 1;
    var c := OnDisk(Final(dates, r, writtenAt));
    RateLimitClock.ClassifiedResumeIsWithinADay(true, text, zones, erredAt);
    assert dates.iso(resumeAt) != "" && dates.parse(dates.iso(resumeAt)) == Some(resumeAt);
    assert WellformedThrottle(dates, c);
    ThrottleStays(dates, c, readings[..n]);
    AbsentOnlyWhenExpired(dates, c, readings[n].now);
    if n > 0 { assert readings[n - 1].now <= readings[n].now; }
  }
}
