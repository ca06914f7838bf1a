/**
 * The echo endpoint of the server package: a request body holding a JSON
 * object is echoed back with the top-level field "echoed" set to true, unless
 * that field is already the boolean true.
 *
 * Decoding and encoding are library behaviour and appear only through their
 * outcome: the handler sees a `DecodeResult` and produces an `Outcome`, the
 * status code and the value that `respondWithJSON` would marshal.
 */
module Server {
  import opened Wrappers
  import opened Json

  const StatusOK: int := 200
  const StatusBadRequest: int := 400
  const StatusInternalServerError: int := 500

  /** The one field the handler inspects and sets. */
  const EchoedKey: string := "echoed"
  /** The single field of both error envelopes. */
  const ErrorKey: string := "error"

  /** The reply body when the request body cannot be parsed. */
  const ErrBadRequest: map<string, string> := map[ErrorKey := "could not parse request payload"]
  /** The reply body when "echoed" is already present and true. */
  const ErrTrueEchoPresent: map<string, string> := map[ErrorKey := "request already had 'echoed: true'"]

  /** A Go `map[string]interface{}` variable: either nil or a map. Reading a
      nil map finds nothing; writing to one panics. */
  datatype GoMap = Nil | Entries(m: map<string, Json>)

  /** What `json.NewDecoder(r.Body).Decode(&body)` leaves behind: an error,
      or success with the decoded map. A body of `null` decodes successfully
      and leaves the map nil. */
  datatype DecodeResult = DecodeError | DecodeOk(body: GoMap)

  /** The end of one request: a reply with a status code and the value that is
      marshalled as its body, or a runtime panic before any reply is written. */
  datatype Outcome = Reply(code: int, payload: Json) | Panic

  /** The JSON value of a `map[string]string` envelope, as marshalled. */
  function Envelope(e: map<string, string>): (j: Json)
    ensures j.JObj? && j.fields.Keys == e.Keys
    ensures forall k :: k in e ==> j.fields[k] == JStr(e[k])
  {
    JObj(map k | k in e :: JStr(e[k]))
  }

  /** "echoed" is present and is exactly the boolean true. */
  predicate AlreadyEchoed(m: map<string, Json>) {
    EchoedKey in m && m[EchoedKey] == JBool(true)
  }

  /** `out` is `m` with "echoed" forced to true and nothing else changed. */
  predicate IsEchoOf(m: map<string, Json>, out: map<string, Json>) {
    && out.Keys == m.Keys + {EchoedKey}
    && out[EchoedKey] == JBool(true)
    && forall k :: k in m && k != EchoedKey ==> out[k] == m[k]
  }

  /**
   * The handler's decision table: a decode error is answered with 500 and
   * the parse-error envelope; a decoded object whose "echoed" is true with 400
   * and the already-echoed envelope; any other object with 200 and the object
   * itself, "echoed" set to true. A nil map (body `null`) reaches the store
   * and panics.
   */
  function Process(d: DecodeResult): (r: Outcome)
    ensures r.Panic? <==> d == DecodeOk(Nil)
    ensures r.Reply? ==> r.code in {StatusOK, StatusBadRequest, StatusInternalServerError}
    ensures r.Reply? ==> r.payload.JObj?
    ensures r.Reply? && r.code == StatusInternalServerError <==> d.DecodeError?
    ensures d.DecodeError? ==> r.payload == Envelope(ErrBadRequest)
    ensures r.Reply? && r.code == StatusBadRequest <==> d.DecodeOk? && d.body.Entries? && AlreadyEchoed(d.body.m)
    ensures r.Reply? && r.code == StatusBadRequest ==> r.payload == Envelope(ErrTrueEchoPresent)
    ensures r.Reply? && r.code == StatusOK ==> d.DecodeOk? && d.body.Entries? && IsEchoOf(d.body.m, r.payload.fields)
  {
    match d
    case DecodeError => Reply(StatusInternalServerError, Envelope(ErrBadRequest))
    case DecodeOk(Nil) => Panic
    case DecodeOk(Entries(m)) =>
      match Lookup(Entries(m), EchoedKey)
      case Some(JBool(true)) => Reply(StatusBadRequest, Envelope(ErrTrueEchoPresent))
      case _ => Reply(StatusOK, JObj(m[EchoedKey := JBool(true)]))
  }

  /** Go's comma-ok map index `v, ok := body[key]`: a missing key, and any key
      of a nil map, gives the zero value nil and `ok == false`. */
  function Lookup(body: GoMap, key: string): (r: Option<Json>)
    ensures r.Some? <==> body.Entries? && key in body.m
    ensures r.Some? ==> r.value == body.m[key]
  {
    if body.Entries? && key in body.m then Some(body.m[key]) else None
  }

  /** Go's type assertion `b, ok := v.(bool)`: it succeeds exactly on a boolean;
      on failure `b` is the zero value false. */
  function AssertBool(v: Json): (r: (bool, bool))
    ensures r.1 <==> v.JBool?
    ensures r.0 <==> v == JBool(true)
  {
    match v
    case JBool(b) => (b, true)
    case _ => (false, false)
  }

  /** Go's map assignment `body[key] = v`: it panics on a nil map (None) and
      otherwise gives the map with `key` bound to `v`. */
  function Store(body: GoMap, key: string, v: Json): (r: Option<GoMap>)
    ensures r.None? <==> body.Nil?
    ensures r.Some? ==> r.value.Entries? && r.value.m.Keys == body.m.Keys + {key}
    ensures r.Some? ==> r.value.m[key] == v
    ensures r.Some? ==> forall k :: k in body.m && k != key ==> r.value.m[k] == body.m[k]
  {
    match body
    case Nil => None
    case Entries(m) => Some(Entries(m[key := v]))
  }

  /**
   * echoHandler step by step: decode, look "echoed" up, assert it to a
   * boolean, return early on true, otherwise store "echoed": true into the
   * decoded map and reply with the map.
   */
  method EchoHandler(d: DecodeResult) returns (r: Outcome)
    ensures r == Process(d)
  {
    if d.DecodeError? {
      return Reply(StatusInternalServerError, Envelope(ErrBadRequest));
    }
    var body := d.body;

    var found := Lookup(body, EchoedKey);
    var echoedVal, present := if found.Some? then found.value else JNull, found.Some?;
    if present {
      var asserted := AssertBool(echoedVal);
      var echoed, ok := asserted.0, asserted.1;
      if ok {
        if echoed {
          return Reply(StatusBadRequest, Envelope(ErrTrueEchoPresent));
        }
      }
    }

    var stored := Store(body, EchoedKey, JBool(true));
    if stored.None? {
      return Panic;
    }
    body := stored.value;
    return Reply(StatusOK, JObj(body.m));
  }

  // Properties of single requests

  /** The two envelopes marshal to the fixed objects
      `{"error":"could not parse request payload"}` and
      `{"error":"request already had 'echoed: true'"}`. */
  lemma EnvelopeLiterals()
    ensures Envelope(ErrBadRequest) == JObj(map["error" := JStr("could not parse request payload")])
    ensures Envelope(ErrTrueEchoPresent) == JObj(map["error" := JStr("request already had 'echoed: true'")])
  {
  }

  /** A body that cannot be decoded gets 500 and exactly the parse-error
      envelope, whatever it held. */
  lemma DecodeErrorReplies500()
    ensures Process(DecodeError) == Reply(StatusInternalServerError, JObj(map[ErrorKey := JStr("could not parse request payload")]))
  {
  }

  /** "echoed": true is rejected with 400 and the fixed envelope; no key of the
      request other than "error" appears in the reply. */
  lemma EchoedTrueRejected(m: map<string, Json>)
    requires EchoedKey in m && m[EchoedKey] == JBool(true)
    ensures Process(DecodeOk(Entries(m))) == Reply(StatusBadRequest, JObj(map[ErrorKey := JStr("request already had 'echoed: true'")]))
    ensures forall k :: k in m && k != ErrorKey ==> k !in Process(DecodeOk(Entries(m))).payload.fields
  {
  }

  /** Without "echoed" the reply is 200 and the request with "echoed": true added. */
  lemma EchoedAbsentAdded(m: map<string, Json>)
    requires EchoedKey !in m
    ensures Process(DecodeOk(Entries(m))) == Reply(StatusOK, JObj(m[EchoedKey := JBool(true)]))
    ensures |Process(DecodeOk(Entries(m))).payload.fields| == |m| + 1
  {
  }

  /** "echoed": false is overwritten to true and the reply is 200. */
  lemma EchoedFalseOverwritten(m: map<string, Json>)
    requires EchoedKey in m && m[EchoedKey] == JBool(false)
    ensures Process(DecodeOk(Entries(m))) == Reply(StatusOK, JObj(m[EchoedKey := JBool(true)]))
    ensures |Process(DecodeOk(Entries(m))).payload.fields| == |m|
  {
  }

  /** A non-boolean "echoed" fails the type assertion, is overwritten with the
      boolean true, and the reply is 200. */
  lemma EchoedNonBoolOverwritten(m: map<string, Json>)
    requires EchoedKey in m && !m[EchoedKey].JBool?
    ensures !AssertBool(m[EchoedKey]).1
    ensures Process(DecodeOk(Entries(m))) == Reply(StatusOK, JObj(m[EchoedKey := JBool(true)]))
  {
  }

  /** On the 200 path every key but "echoed" keeps its value, the key set grows
      by "echoed" only, and "echoed" is true. */
  lemma OtherKeysUntouched(m: map<string, Json>, k: string)
    requires !AlreadyEchoed(m)
    ensures Process(DecodeOk(Entries(m))).Reply?
    ensures Process(DecodeOk(Entries(m))).code == StatusOK
    ensures Process(DecodeOk(Entries(m))).payload.fields.Keys == m.Keys + {EchoedKey}
    ensures Process(DecodeOk(Entries(m))).payload.fields[EchoedKey] == JBool(true)
    ensures k in m && k != EchoedKey ==> Process(DecodeOk(Entries(m))).payload.fields[k] == m[k]
  {
  }

  /** Every request ends in exactly one reply with code 200, 400 or 500, except
      a `null` body, which panics at the store. */
  lemma EveryPathReplies(d: DecodeResult)
    ensures d != DecodeOk(Nil) ==> Process(d).Reply?
    ensures d != DecodeOk(Nil) ==> Process(d).code == StatusOK || Process(d).code == StatusBadRequest || Process(d).code == StatusInternalServerError
    ensures d == DecodeOk(Nil) ==> Process(d) == Panic
  {
  }

  // Re-submission

  /** The request the server decodes when a client sends back the body of a
      reply: `json.Marshal` of the payload, then `Decode` into a map. This is
      an assumed round trip on decoded values: an object gives the same map
      back, `null` gives a nil map, anything else fails to decode. */
  function Resubmit(r: Outcome): (d: DecodeResult)
    requires r.Reply?
    ensures r.payload.JObj? ==> d == DecodeOk(Entries(r.payload.fields))
    ensures r.payload.JNull? ==> d == DecodeOk(Nil)
    ensures !r.payload.JObj? && !r.payload.JNull? ==> d == DecodeError
  {
    match r.payload
    case JObj(f) => DecodeOk(Entries(f))
    case JNull => DecodeOk(Nil)
    case _ => DecodeError
  }

  /** Sending back the body of a 200 reply is rejected with 400: the handler is
      safe to call once, not idempotent. */
  lemma SafeOnce(d: DecodeResult)
    requires Process(d).Reply? && Process(d).code == StatusOK
    ensures Process(Resubmit(Process(d))) == Reply(StatusBadRequest, Envelope(ErrTrueEchoPresent))
  {
  }

  /** The status codes of `n` consecutive requests, each sending back the body of
      the reply before it; the first sends `d`. A panic ends the sequence. */
  function Codes(d: DecodeResult, n: nat): seq<int>
    decreases n
  {
    if n == 0 then []
    else
      match Process(d)
      case Panic => []
      case Reply(code, payload) => [code] + Codes(Resubmit(Reply(code, payload)), n - 1)
  }

  /** Starting from any decoded object and sending each reply body back, every
      request gets a reply, the first is 400 exactly when "echoed" was already
      true, and the codes alternate between 200 and 400. */
  lemma {:induction false} ResubmissionAlternates(m: map<string, Json>, n: nat)
    decreases n
    ensures |Codes(DecodeOk(Entries(m)), n)| == n
    ensures n > 0 ==> (Codes(DecodeOk(Entries(m)), n)[0] == StatusBadRequest <==> AlreadyEchoed(m))
    ensures forall i :: 0 <= i < n ==> Codes(DecodeOk(Entries(m)), n)[i] in {StatusOK, StatusBadRequest}
    ensures forall i :: 0 <= i < n - 1 ==> Codes(DecodeOk(Entries(m)), n)[i] != Codes(DecodeOk(Entries(m)), n)[i + 1]
  {
    if n > 0 {
      var r := Process(DecodeOk(Entries(m)));
      var f := r.payload.fields;
      ResubmissionAlternates(f, n - 1);
      var c := Codes(DecodeOk(Entries(m)), n);
      var rest := Codes(DecodeOk(Entries(f)), n - 1);
      assert c == [r.code] + rest;
      if n > 1 {
        if r.code == StatusOK {
          assert AlreadyEchoed(f);
        } else {
          assert EchoedKey !in f;
        }
        assert c[0] != c[1];
      }
      forall i | 0 < i < n
        ensures c[i] == rest[i - 1]
      {
      }
    }
  }
}
