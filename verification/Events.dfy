/** The message a consumer reads from Kafka and the row it turns it into
    (ingestion/app/consumer.py: `_parse_dt`, `_enrich_row`). */
module Events {
  import opened Prelude

  /** A parsed ISO timestamp, in microseconds; `offset` is missing for a naive one. */
  datatype IsoTime = IsoTime(local: int, offset: Option<int>)

  /** Foreign code the pipeline calls, taken as functions: the ISO parser, the
      GeoIP and user-agent lookups, and the partitioner of the Kafka producer. */
  datatype Env = Env(
    fromIso: string -> Option<IsoTime>,
    geo: string -> (string, string),
    agent: string -> (string, string, string),
    route: string -> nat)

  datatype Revenue = NoRevenue | Cents(cents: int) | NotNumeric

  /** A deserialised Kafka value. `Garbage` is any value that is not an object, or whose
      `occurred_at`, `properties` or `_ingest` is of a type the enrichment cannot use. */
  datatype Message =
    | Garbage
    | Message(
        workspaceId: Option<string>, eventId: Option<string>, eventName: Option<string>,
        userId: string, sessionId: string, occurredAt: Option<string>,
        properties: map<string, Option<string>>, revenue: Revenue, currency: string,
        country: string, city: string, device: string, os: string, browser: string,
        utm: seq<string>, sourceIp: string, userAgent: string)

  /** One row of the `events` table; `occurredMs` has the column's millisecond precision. */
  datatype Row = Row(
    workspaceId: string, eventId: string, eventName: string, userId: string, sessionId: string,
    occurredMs: int, properties: map<string, string>, revenueCents: int, currency: string,
    country: string, city: string, device: string, os: string, browser: string, utm: seq<string>)

  /** The four-column ORDER BY of the `events` table. */
  datatype SortKey = SortKey(workspaceId: string, eventName: string, occurredMs: int, eventId: string)

  function KeyOf(row: Row): SortKey {
    SortKey(row.workspaceId, row.eventName, row.occurredMs, row.eventId)
  }

  function ReplaceZ(raw: string): string {
    if raw == "" then "" else (if raw[0] == 'Z' then "+00:00" else [raw[0]]) + ReplaceZ(raw[1..])
  }

  /** Whether `_parse_dt` takes the time from the message instead of from the clock. */
  predicate Parseable(env: Env, raw: Option<string>) {
    raw.Some? && raw.value != "" && env.fromIso(ReplaceZ(raw.value)).Some?
  }

  function ParseDt(env: Env, raw: Option<string>, now: int): int {
    if raw.None? || raw.value == "" then now
    else
      match env.fromIso(ReplaceZ(raw.value))
      case None => now
      case Some(IsoTime(local, None)) => local
      case Some(IsoTime(local, Some(offset))) => local - offset
  }

  function Or(a: string, b: string): string {
    if a != "" then a else b
  }

  function EnrichRow(env: Env, m: Message, now: int): Result<Row> {
    if m.Garbage? || m.workspaceId.None? || m.eventId.None? || m.eventName.None? || m.revenue.NotNumeric? then
      Raised
    else
      var inProps := if "$user_agent" in m.properties && m.properties["$user_agent"].Some?
                     then m.properties["$user_agent"].value else "";
      var (geoCountry, geoCity) := env.geo(m.sourceIp);
      var country := Or(m.country, geoCountry);
      var city := if m.country != "" then m.city else Or(m.city, geoCity);
      var (device, os, browser) := env.agent(Or(inProps, m.userAgent));
      var properties := map k | k in m.properties ::
        match m.properties[k] { case None => "" case Some(v) => v };
      var cents := match m.revenue { case Cents(c) => c case _ => 0 };
      Ok(Row(m.workspaceId.value, m.eventId.value, m.eventName.value, m.userId, m.sessionId,
             ParseDt(env, m.occurredAt, now) / 1000, properties, cents, m.currency,
             country, city, Or(m.device, device), Or(m.os, os), Or(m.browser, browser), m.utm))
  }

  /** `_enrich_row` does not raise. */
  predicate WellFormed(m: Message) {
    m.Message? && m.workspaceId.Some? && m.eventId.Some? && m.eventName.Some? && !m.revenue.NotNumeric?
  }

  /** The row of a well-formed message enriched at time `now`. */
  function RowAt(env: Env, m: Message, now: int): (row: Row)
    requires WellFormed(m)
    ensures EnrichRow(env, m, now) == Ok(row)
    ensures row.workspaceId == m.workspaceId.value
  {
    EnrichRow(env, m, now).value
  }

  predicate Timed(env: Env, m: Message) {
    m.Message? && Parseable(env, m.occurredAt)
  }

  /** `_enrich_row` raises exactly for the malformed messages, whatever the clock says. */
  lemma RaisesIffMalformed(env: Env, m: Message, now: int)
    ensures EnrichRow(env, m, now).Raised? <==> !WellFormed(m)
  {
  }

  /** A redelivered message keeps its sort key at every later enrichment time if and only if
      its `occurred_at` parses; then the whole row is the same. */
  lemma KeyStableIffTimed(env: Env, m: Message)
    requires WellFormed(m)
    ensures Timed(env, m) <==> (forall a, b :: KeyOf(RowAt(env, m, a)) == KeyOf(RowAt(env, m, b)))
    ensures Timed(env, m) ==> (forall a, b :: RowAt(env, m, a) == RowAt(env, m, b))
  {
    if !Timed(env, m) {
      assert KeyOf(RowAt(env, m, 0)).occurredMs == 0;
      assert KeyOf(RowAt(env, m, 1000)).occurredMs == 1;
    }
  }

  /** The row of a timed message does not depend on when it is enriched. */
  lemma RowFixed(env: Env, m: Message, a: int, b: int)
    requires WellFormed(m) && Timed(env, m)
    ensures RowAt(env, m, a) == RowAt(env, m, b)
  {
  }

  // ---------------------------------------------------------------- what a stored row holds

  /** A column whose value the message brings, or a lookup supplies where the message's is empty. */
  predicate Filled(stored: string, own: string, looked: string) {
    (own != "" ==> stored == own) && (own == "" ==> stored == looked)
  }

  /** The user agent the lookup is asked about: the property of that name, else the header. */
  ghost predicate Agent(properties: map<string, string>, header: string, ua: string) {
    if "$user_agent" in properties && properties["$user_agent"] != "" then ua == properties["$user_agent"]
    else ua == header
  }

  /** MAIN: what the row of a message holds, column by column: who did it and what, copied; the
      amount, zero where there is none; the properties, absent values as empty ones; the time in
      milliseconds since the epoch; and where and on what, from the message or else from the
      lookup of its address or its user agent. A message's city stays with its country: the
      address is not asked for a city where the message names the country. */
  lemma RowCarriesMessage(env: Env, m: Message, now: int, ua: string)
    requires WellFormed(m)
    requires Agent(RowAt(env, m, now).properties, m.userAgent, ua)
    ensures var row := RowAt(env, m, now);
            && Some(row.workspaceId) == m.workspaceId && Some(row.eventId) == m.eventId
            && Some(row.eventName) == m.eventName && row.userId == m.userId && row.sessionId == m.sessionId
            && row.currency == m.currency && row.utm == m.utm
    ensures RowAt(env, m, now).revenueCents == if m.revenue.Cents? then m.revenue.cents else 0
    ensures RowAt(env, m, now).properties.Keys == m.properties.Keys
    ensures forall k :: k in m.properties ==>
              (m.properties[k] == None || m.properties[k] == Some("") <==> RowAt(env, m, now).properties[k] == "")
    ensures forall k :: k in m.properties && m.properties[k].Some? ==>
              Some(RowAt(env, m, now).properties[k]) == m.properties[k]
    ensures var row := RowAt(env, m, now);
            && Filled(row.country, m.country, env.geo(m.sourceIp).0)
            && Filled(row.city, m.city, if m.country == "" then env.geo(m.sourceIp).1 else "")
            && Filled(row.device, m.device, env.agent(ua).0)
            && Filled(row.os, m.os, env.agent(ua).1)
            && Filled(row.browser, m.browser, env.agent(ua).2)
  {
  }

  /** Properties that are all present arrive as they are. */
  lemma RowProperties(env: Env, m: Message, now: int, properties: map<string, string>)
    requires WellFormed(m) && m.properties.Keys == properties.Keys
    requires forall k :: k in properties ==> m.properties[k] == Some(properties[k])
    ensures RowAt(env, m, now).properties == properties
  {
  }

  /** MAIN: the time of the row: the message's own instant with its offset taken off, whatever the
      clock says; UTC where it names no offset; and the clock's where it brings none that parses.
      A Z is read as the offset +00:00. */
  lemma RowTime(env: Env, m: Message, now: int, text: string, rest: string, t: IsoTime)
    requires WellFormed(m)
    ensures m.occurredAt == None || m.occurredAt == Some("") ==>
              now - 1000 < RowAt(env, m, now).occurredMs * 1000 <= now
    ensures m.occurredAt == Some(text) && text != "" && 'Z' !in text ==>
              (env.fromIso(text) == Some(t) ==>
                 var utc := if t.offset.Some? then t.local - t.offset.value else t.local;
                 utc - 1000 < RowAt(env, m, now).occurredMs * 1000 <= utc)
              && (env.fromIso(text) == None ==> now - 1000 < RowAt(env, m, now).occurredMs * 1000 <= now)
    ensures m.occurredAt == Some(text + "Z" + rest) && 'Z' !in text + rest &&
            env.fromIso(text + "+00:00" + rest) == Some(t) ==>
              var utc := if t.offset.Some? then t.local - t.offset.value else t.local;
              utc - 1000 < RowAt(env, m, now).occurredMs * 1000 <= utc
  {
    if 'Z' !in text {
      ReplaceNone(text, "");
      ReplaceNone(text, "Z" + rest);
      assert text + "Z" + rest == text + ("Z" + rest) && ("Z" + rest)[1..] == rest;
      assert text + "+00:00" + rest == text + ("+00:00" + rest);
      if 'Z' !in rest {
        ReplaceNone(rest, "");
        assert rest + "" == rest;
      }
      assert ReplaceZ(text) == text by {
        assert text + "" == text;
      }
    }
  }

  lemma {:induction false} ReplaceNone(text: string, more: string)
    requires 'Z' !in text
    ensures ReplaceZ(text + more) == text + ReplaceZ(more)
  {
    if text == "" {
      assert text + more == more && text + ReplaceZ(more) == ReplaceZ(more);
    } else {
      ReplaceNone(text[1..], more);
      assert (text + more)[1..] == text[1..] + more;
      assert [text[0]] + (text[1..] + ReplaceZ(more)) == text + ReplaceZ(more);
    }
  }
}
