/** What encoding/json makes of a record whose strings it can write as they are (events.go:72-81). */
module EventJson {
  import opened Types
  import opened Rendering

  function Quoted(s: string): Bytes { "\"" + s + "\"" }

  function OrElse<T>(x: Option<T>, otherwise: T): T {
    if x.Some? then x.value else otherwise
  }

  // One field after the first; omitempty drops it.
  function Field(name: string, there: bool, value: Bytes): Bytes {
    if there then ",\"" + name + "\":" + value else ""
  }

  /** Every field but op is left out when empty; `by` is a pointer and left out when nil. */
  function Json(e: WriteEvent): Bytes {
    "{\"op\":" + Quoted(e.op)
    + Field("scope", e.scope != "", Quoted(e.scope))
    + Field("id", e.id != "", Quoted(e.id))
    + Field("seq", e.sq != 0, Digits(e.sq))
    + Field("ts", e.ts != 0, RenderInt(e.ts))
    + Field("payload", e.payload.Some? && e.payload.value != "", OrElse(e.payload, ""))
    + Field("by", e.inc.Some?, RenderInt(OrElse(e.inc, 0)))
    + Field("max_seq", e.maxSeq != 0, Digits(e.maxSeq))
    + "}"
  }

  predicate PlainString(s: string) {
    forall i :: 0 <= i < |s| ==> 'a' <= s[i] <= 'z' || '0' <= s[i] <= '9' || s[i] == '_'
  }

  predicate IsNumber(p: Bytes) {
    p != "" && p[0] != '0' && forall i :: 0 <= i < |p| ==> '0' <= p[i] <= '9'
  }

  predicate PlainEvent(e: WriteEvent) {
    PlainString(e.op) && PlainString(e.scope) && PlainString(e.id) && (e.payload.Some? ==> IsNumber(e.payload.value))
  }

  /** A codec that does what encoding/json and the validators do on names and numbers of this kind. */
  ghost predicate Encodes(c: Codec) {
    && !c.payloadOk("")
    && (forall p :: IsNumber(p) ==> c.payloadOk(p) && c.decodeString(p) == None)
    && (forall s :: s != "" && |s| <= 128 && PlainString(s) ==> c.nameOk(s))
    && (forall e :: PlainEvent(e) ==> Records(c, e))
  }

  // The record is JSON, and not a JSON string.
  ghost predicate Records(c: Codec, e: WriteEvent) {
    c.marshal(e) == Some(Json(e)) && c.payloadOk(Json(e)) && c.decodeString(Json(e)) == None
  }

  // One such codec, for the record.
  const PLAIN := Codec(_ => None, _ => None, (p: Bytes) => p != "", _ => true, (e: WriteEvent) => Some(Json(e)))

  lemma {:induction false} SomeCodecEncodes()
    ensures Encodes(PLAIN)
  {
    hide PlainEvent, IsNumber, PlainString;
    forall e | PlainEvent(e) ensures Records(PLAIN, e) { JsonLength(e); }
    assert forall p :: IsNumber(p) ==> p != "" by { NumbersAreSomething(); }
  }

  lemma {:induction false} NumbersAreSomething()
    ensures forall p :: IsNumber(p) ==> p != ""
  {
  }

  lemma {:induction false} NameEncoded(c: Codec, s: string)
    requires Encodes(c) && PlainString(s) && s != "" && |s| <= 128
    ensures c.nameOk(s)
  {
    hide PlainString;
  }

  lemma {:induction false} NumberEncoded(c: Codec, p: Bytes)
    requires Encodes(c) && IsNumber(p)
    ensures c.payloadOk(p) && c.decodeString(p) == None
  {
    hide IsNumber;
  }

  lemma {:induction false} EventEncoded(c: Codec, e: WriteEvent)
    requires Encodes(c) && PlainEvent(e)
    ensures c.marshal(e) == Some(Json(e)) && c.payloadOk(Json(e)) && c.decodeString(Json(e)) == None
  {
    hide PlainEvent, Json;
    assert Records(c, e);
  }

  lemma {:induction false} DigitsLength(n: nat, k: nat)
    requires k > 0 && n < Power10(k) && (k > 1 ==> n >= Power10(k - 1))
    ensures |Digits(n)| == k
    decreases k
  {
    if k > 1 { DigitsLength(n / 10, k - 1); }
  }

  lemma {:induction false} SomeDigits(n: nat)
    ensures |Digits(n)| >= 1
  {
  }

  lemma {:induction false} FieldLength(name: string, there: bool, value: Bytes)
    ensures |Field(name, there, value)| == if there then 4 + |name| + |value| else 0
  {
  }

  /** The length of a record, field by field. */
  lemma {:induction false} JsonLength(e: WriteEvent)
    ensures |Json(e)| == 9 + |e.op|
      + (if e.scope == "" then 0 else 11 + |e.scope|)
      + (if e.id == "" then 0 else 8 + |e.id|)
      + (if e.sq == 0 then 0 else 7 + |Digits(e.sq)|)
      + (if e.ts == 0 then 0 else 6 + |RenderInt(e.ts)|)
      + (if e.payload.Some? && e.payload.value != "" then 11 + |e.payload.value| else 0)
      + (if e.inc.Some? then 6 + |RenderInt(e.inc.value)| else 0)
      + (if e.maxSeq == 0 then 0 else 11 + |Digits(e.maxSeq)|)
  {
    hide Digits, RenderInt, Field;
    FieldLength("scope", e.scope != "", Quoted(e.scope));
    FieldLength("id", e.id != "", Quoted(e.id));
    FieldLength("seq", e.sq != 0, Digits(e.sq));
    FieldLength("ts", e.ts != 0, RenderInt(e.ts));
    FieldLength("payload", e.payload.Some? && e.payload.value != "", OrElse(e.payload, ""));
    FieldLength("by", e.inc.Some?, RenderInt(OrElse(e.inc, 0)));
    FieldLength("max_seq", e.maxSeq != 0, Digits(e.maxSeq));
  }

  /** A record with every field there is. */
  lemma {:induction false} Example()
    ensures Json(WriteEvent("x", "a", "b", 1, 2, Some("3"), Some(-4), 5))
         == "{\"op\":\"x\"" + ",\"scope\":\"a\"" + ",\"id\":\"b\"" + ",\"seq\":1" + ",\"ts\":2"
            + ",\"payload\":3" + ",\"by\":-4" + ",\"max_seq\":5" + "}"
  {
    FieldExamples();
    hide Field, Quoted;
    assert "{\"op\":" + Quoted("x") == "{\"op\":\"x\"";
  }

  lemma {:induction false} FieldExamples()
    ensures Quoted("x") == "\"x\"" && forall name, value :: Field(name, false, value) == ""
    ensures Field("scope", true, Quoted("a")) == ",\"scope\":\"a\"" && Field("id", true, Quoted("b")) == ",\"id\":\"b\""
    ensures Field("seq", true, Digits(1)) == ",\"seq\":1" && Field("ts", true, RenderInt(2)) == ",\"ts\":2"
    ensures Field("payload", true, "3") == ",\"payload\":3" && Field("by", true, RenderInt(-4)) == ",\"by\":-4"
    ensures Field("max_seq", true, Digits(5)) == ",\"max_seq\":5"
  {
    assert Digits(1) == "1" && Digits(5) == "5" && RenderInt(2) == "2" && RenderInt(-4) == "-4";
    hide Digits, RenderInt;
  }
}
