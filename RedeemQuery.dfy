/**
 The `POST /api/redeem-query` handler: it picks the redemption key out of the
 request body, forwards it to the upstream "redeem" and then "query"
 endpoints, and reconciles the two loosely typed answers into one verdict
 (`ok`, `error`, `activatedAt`, `card`).

 The two upstream calls are not performed here: `Handle` receives the
 upstream service as a function from the call it makes to the response it
 gets, and reports the calls it made, in order.
 */
module RedeemQuery {
  import opened Wrappers
  import opened Js

  const BadJsonMessage: string := "请求体不是合法 JSON"
  const MissingKeyMessage: string := "缺少 key_id（卡密）字段"
  const GenericFailure: string := "激活/查询失败，请检查卡密是否正确"

  /** The body fields that may carry the redemption key, in order of preference. */
  const KeyAliases: seq<string> := ["key_id", "key", "code", "cardKey", "token"]

  datatype Endpoint = RedeemEndpoint | QueryEndpoint

  /** One outbound POST: where it goes and the JSON object it sends. */
  datatype Call = Call(endpoint: Endpoint, payload: map<string, Value>)

  /** What `postJson`, or the `.catch` around it, hands back. */
  datatype Upstream = Upstream(ok: bool, status: int, data: Value)

  /** The canonical card record. `validMinutes` holds the raw value that the
      route passes to `Number(...)`. */
  datatype Card = Card(
    cardNumber: Option<string>,
    cvv: Option<string>,
    expiry: Option<string>,
    validMinutes: Option<Value>,
    expireTime: Option<string>)

  datatype Verdict = Verdict(ok: bool, error: Option<Value>, activatedAt: Value, card: Option<Card>)

  /** A 400 answer with a message, or the reconciled answer with both upstream statuses. */
  datatype Reply =
    | Rejected(message: string)
    | Answered(verdict: Verdict, redeemStatus: int, queryStatus: int)

  /** The reply and the upstream calls made to produce it. */
  datatype Outcome = Outcome(reply: Reply, calls: seq<Call>)

  /** The result of reading the request body. */
  datatype Prepared =
    | Reject(message: string)
    | Forward(key: string, payload: map<string, Value>)

  /** The `.catch` result of a call that threw with message `message`. */
  function Failed(message: string): Upstream {
    Upstream(false, 500, Obj(map["error" := Str(message)]))
  }

  function HttpStatus(reply: Reply): (status: int)
    ensures status == 400 <==> reply.Rejected?
  {
    if reply.Rejected? then 400 else 200
  }

  // ---------------------------------------------------------------------------
  // Request key selection

  function AliasValues(body: Value): seq<Value> {
    seq(|KeyAliases|, i requires 0 <= i < |KeyAliases| => Prop(body, KeyAliases[i]))
  }

  /** `body.key_id ?? body.key ?? body.code ?? body.cardKey ?? body.token` */
  function SelectKey(body: Value): Value {
    CoalesceAll(AliasValues(body))
  }

  /** The key is the first alias whose value is not nullish; it is nullish
      exactly when every alias is. */
  lemma KeyIsFirstNonNullishAlias(body: Value)
    ensures var i := FirstKept(AliasValues(body), NotNullish);
      SelectKey(body) == if i < |KeyAliases| then Prop(body, KeyAliases[i]) else Prop(body, "token")
    ensures Nullish(SelectKey(body)) <==> forall a :: a in KeyAliases ==> Nullish(Prop(body, a))
  {
    var vs := AliasValues(body);
    ChainIsFirstKept(vs, NotNullish);
    var i := FirstKept(vs, NotNullish);
    if i < |vs| {
      assert KeyAliases[i] in KeyAliases && !Nullish(Prop(body, KeyAliases[i]));
    } else {
      forall a | a in KeyAliases ensures Nullish(Prop(body, a)) {
        var j :| 0 <= j < |KeyAliases| && KeyAliases[j] == a;
        assert !NotNullish(vs[j]);
      }
    }
  }

  /** Only an object can carry a key: any other body selects `undefined`. */
  lemma KeyNeedsObject(body: Value)
    ensures !body.Obj? ==> SelectKey(body) == Undefined
  {
    ChainIsFirstKept(AliasValues(body), NotNullish);
  }

  /** Parse outcome of the body (`None`: not JSON), then `?? {}`, key
      selection, the 400 checks, and the payload `{ ...body, key_id: key }`. */
  function Prepare(parsed: Option<Value>): (p: Prepared)
    ensures p.Forward? ==> p.key != "" && "key_id" in p.payload && p.payload["key_id"] == Str(p.key)
    ensures p.Reject? ==> p.message in {BadJsonMessage, MissingKeyMessage}
  {
    match parsed
    case None => Reject(BadJsonMessage)
    case Some(v) =>
      var body := Coalesce(v, Obj(map[]));
      var key := SelectKey(body);
      if !Truthy(key) || !key.Str? then Reject(MissingKeyMessage)
      else
        KeyNeedsObject(body);
        Forward(key.s, body.fields["key_id" := key])
  }

  /** The body is forwarded exactly when it is JSON and its selected key is a
      non-empty string; otherwise the message names the reason. */
  lemma PrepareAcceptsExactly(parsed: Option<Value>)
    ensures parsed.None? ==> Prepare(parsed) == Reject(BadJsonMessage)
    ensures parsed.Some? ==>
      var key := SelectKey(Coalesce(parsed.value, Obj(map[])));
      (Prepare(parsed).Forward? <==> key.Str? && key.s != "")
      && (Prepare(parsed).Reject? ==> Prepare(parsed).message == MissingKeyMessage)
  {
  }

  /** The forwarded payload is the request body with `key_id` set to the
      selected key, and nothing else changed. */
  lemma PayloadOverwritesOnlyKeyId(parsed: Option<Value>)
    requires Prepare(parsed).Forward?
    ensures parsed.Some?
    ensures var body := Coalesce(parsed.value, Obj(map[]));
      var Forward(key, payload) := Prepare(parsed);
      && body.Obj?
      && key != ""
      && SelectKey(body) == Str(key)
      && payload.Keys == body.fields.Keys + {"key_id"}
      && payload["key_id"] == Str(key)
      && forall k :: k in body.fields && k != "key_id" ==> payload[k] == body.fields[k]
  {
    KeyNeedsObject(Coalesce(parsed.value, Obj(map[])));
  }

  // ---------------------------------------------------------------------------
  // Reconciliation

  /** `x.data || {}` */
  function DataOrEmpty(u: Upstream): Value {
    Or(u.data, Obj(map[]))
  }

  /** `q?.success === true || r?.success === true` */
  function Success(q: Value, r: Value): bool {
    Prop(q, "success") == Bool(true) || Prop(r, "success") == Bool(true)
  }

  /** `q?.card ?? r?.card` */
  function CardSource(q: Value, r: Value): Value {
    Coalesce(Prop(q, "card"), Prop(r, "card"))
  }

  /** `v ? String(v) : undefined` */
  function StrIfTruthy(v: Value): Option<string> {
    if Truthy(v) then Some(ToStr(v)) else None
  }

  /** `${month.padStart(2, "0")}/${year}` on the printed month and year. */
  function FormatExpiry(month: string, year: string): string {
    PadStart(month, 2, '0') + "/" + year
  }

  /** The expiry of a card source: present when month and year are both truthy. */
  function Expiry(raw: Value): Option<string> {
    var month, year := Prop(raw, "exp_month"), Prop(raw, "exp_year");
    if Truthy(month) && Truthy(year) then Some(FormatExpiry(ToStr(month), ToStr(year)))
    else None
  }

  /** `q?.expire_minutes ?? r?.expire_minutes`, kept unless it is `undefined`. */
  function ValidMinutes(q: Value, r: Value): Option<Value> {
    var m := Coalesce(Prop(q, "expire_minutes"), Prop(r, "expire_minutes"));
    if m.Undefined? then None else Some(m)
  }

  /** The card record built from a truthy `cardRaw`. */
  function BuildCard(raw: Value, q: Value, r: Value): Card {
    Card(
      StrIfTruthy(Prop(raw, "pan")),
      StrIfTruthy(Prop(raw, "cvv")),
      Expiry(raw),
      ValidMinutes(q, r),
      StrIfTruthy(Prop(raw, "expire_time")))
  }

  /** The truthiness of an optional string field (`undefined` is falsy). */
  predicate Filled(o: Option<string>) {
    o.Some? && o.value != ""
  }

  /** The upstream fields searched for a failure message, in order, and the fallback. */
  function ErrorCandidates(q: Value, r: Value): seq<Value> {
    [Prop(q, "error"), Prop(q, "message"), Prop(r, "error"), Prop(r, "message"), Str(GenericFailure)]
  }

  /** The card of the verdict: built from a truthy card source, absent otherwise. */
  function CardOf(q: Value, r: Value): Option<Card> {
    var raw := CardSource(q, r);
    if Truthy(raw) then Some(BuildCard(raw, q, r)) else None
  }

  /** `q?.used_time ?? r?.used_time ?? startedAt` */
  function ActivatedAt(q: Value, r: Value, startedAt: string): Value {
    CoalesceAll([Prop(q, "used_time"), Prop(r, "used_time"), Str(startedAt)])
  }

  /** `q?.error || q?.message || r?.error || r?.message || <generic message>` */
  function FailureMessage(q: Value, r: Value): Value {
    OrAll(ErrorCandidates(q, r))
  }

  /** The handler's verdict once both upstream calls have returned: an error
      exactly when not ok, and then a truthy one; a card whenever ok; an
      activation time that is never nullish. */
  function Reconcile(redeem: Upstream, query: Upstream, startedAt: string): (v: Verdict)
    ensures v.error.None? <==> v.ok
    ensures v.error.Some? ==> Truthy(v.error.value)
    ensures v.ok ==> v.card.Some?
    ensures NotNullish(v.activatedAt)
  {
    var q := DataOrEmpty(query);
    var r := DataOrEmpty(redeem);
    ActivatedAtChoice(q, r, startedAt);
    FailureMessageIsFirstTruthy(q, r);
    var card := CardOf(q, r);
    var ok := Success(q, r) && card.Some? && (Filled(card.value.cardNumber) || Filled(card.value.cvv));
    var error := if ok then None else Some(FailureMessage(q, r));
    Verdict(ok, error, ActivatedAt(q, r, startedAt), card)
  }

  /** A null, missing or otherwise falsy `data` reads as `{}`, and any other
      `data` is read as it is. */
  lemma DataDefaultsToEmptyObject(u: Upstream, name: string)
    ensures Prop(DataOrEmpty(u), name) == Prop(u.data, name)
    ensures !Truthy(u.data) ==> DataOrEmpty(u) == Obj(map[])
  {
  }

  /** The verdict depends on the upstream bodies only, not on their HTTP
      status or `ok` flag. */
  lemma VerdictIgnoresHttpStatus(redeem: Upstream, query: Upstream, redeem': Upstream, query': Upstream, startedAt: string)
    requires redeem'.data == redeem.data && query'.data == query.data
    ensures Reconcile(redeem', query', startedAt) == Reconcile(redeem, query, startedAt)
  {
  }

  /** The success signal is a literal `true` in either body. */
  lemma SuccessSignal(redeem: Upstream, query: Upstream)
    ensures Success(DataOrEmpty(query), DataOrEmpty(redeem)) <==>
      Prop(query.data, "success") == Bool(true) || Prop(redeem.data, "success") == Bool(true)
  {
  }

  /** The card comes from the query's `card` whenever that is not nullish,
      and then nothing the redeem call said changes it except `validMinutes`;
      otherwise it comes from the redeem's `card`. A card is present exactly
      when that source is truthy, and its `validMinutes` is read from the two
      bodies whichever card was chosen (see `ValidMinutesPresence`). */
  lemma CardSourcePreference(redeem: Upstream, redeem': Upstream, query: Upstream, startedAt: string)
    ensures var v := Reconcile(redeem, query, startedAt);
      var raw := if NotNullish(Prop(query.data, "card")) then Prop(query.data, "card")
                 else Prop(redeem.data, "card");
      (v.card.Some? <==> Truthy(raw))
      && (v.card.Some? ==>
            && v.card.value.cardNumber == StrIfTruthy(Prop(raw, "pan"))
            && v.card.value.cvv == StrIfTruthy(Prop(raw, "cvv"))
            && v.card.value.expiry == Expiry(raw)
            && v.card.value.expireTime == StrIfTruthy(Prop(raw, "expire_time"))
            && v.card.value.validMinutes == ValidMinutes(query.data, redeem.data))
    ensures NotNullish(Prop(query.data, "card")) ==>
      var v, v' := Reconcile(redeem, query, startedAt), Reconcile(redeem', query, startedAt);
      && v.card.Some? == v'.card.Some?
      && (v.card.Some? ==> v.card.value.(validMinutes := None) == v'.card.value.(validMinutes := None))
  {
    DataDefaultsToEmptyObject(query, "card");
    DataDefaultsToEmptyObject(redeem, "card");
    DataDefaultsToEmptyObject(query, "expire_minutes");
    DataDefaultsToEmptyObject(redeem, "expire_minutes");
  }

  /** Falsy but present: a query `card` of `false`, `0` or `""` hides the
      redeem's card, and no card is returned. */
  lemma FalsyQueryCardHidesRedeemCard(startedAt: string)
    ensures var redeem := Upstream(true, 200, Obj(map["success" := Bool(true), "card" := Obj(map["pan" := Str("4111")])]));
      var query := Upstream(true, 200, Obj(map["card" := Bool(false)]));
      var v := Reconcile(redeem, query, startedAt);
      v.card.None? && !v.ok
  {
  }

  /** A card is returned as soon as its source is truthy, even with no number
      and no CVV; the verdict is then not ok. */
  lemma EmptyCardIsStillReturned(startedAt: string)
    ensures var query := Upstream(true, 200, Obj(map["success" := Bool(true), "card" := Obj(map[])]));
      var v := Reconcile(Failed("x"), query, startedAt);
      v.card == Some(Card(None, None, None, None, None)) && !v.ok
  {
  }

  /** The expiry is the month, left-padded with '0' to at least two
      characters, a slash, and the year as printed. */
  lemma ExpiryFormat(month: string, year: string)
    ensures FormatExpiry(month, year) == Fill('0', 2 - |month|) + month + "/" + year
    ensures |FormatExpiry(month, year)| == (if |month| >= 2 then |month| else 2) + 1 + |year|
    ensures |month| >= 2 ==> FormatExpiry(month, year) == month + "/" + year
  {
  }

  /** The expiry is present exactly when both month and year are truthy, and
      is then formatted from their printed forms. */
  lemma ExpiryPresence(raw: Value)
    ensures Expiry(raw).Some? <==> Truthy(Prop(raw, "exp_month")) && Truthy(Prop(raw, "exp_year"))
    ensures Expiry(raw).Some? ==>
      var m, y := ToStr(Prop(raw, "exp_month")), ToStr(Prop(raw, "exp_year"));
      Expiry(raw).value == Fill('0', 2 - |m|) + m + "/" + y
  {
  }

  /** A one-digit month and a four-digit year give "0M/YYYY". */
  lemma ExpiryOfNumbers(raw: Value, month: nat, year: nat)
    requires Prop(raw, "exp_month") == Num(month) && Prop(raw, "exp_year") == Num(year)
    requires 1 <= month <= 9 && 1000 <= year <= 9999
    ensures Expiry(raw) == Some(['0', Digit(month), '/', Digit(year / 1000),
      Digit(year / 100 % 10), Digit(year / 10 % 10), Digit(year % 10)])
  {
    OneDigit(month);
    FourDigits(year);
    var p := ['0', Digit(month)];
    var y := [Digit(year / 1000), Digit(year / 100 % 10), Digit(year / 10 % 10), Digit(year % 10)];
    assert Expiry(raw) == Some(FormatExpiry(ToStr(Num(month)), ToStr(Num(year))));
    assert FormatExpiry(ToStr(Num(month)), ToStr(Num(year))) == p + "/" + y;
    assert p + "/" + y == [p[0], p[1], '/', y[0], y[1], y[2], y[3]];
  }

  /** Month 9 and year 2027 give "09/2027". */
  lemma ExpiryPadsMonth(raw: Value)
    requires Prop(raw, "exp_month") == Num(9) && Prop(raw, "exp_year") == Num(2027)
    ensures Expiry(raw) == Some("09/2027")
  {
    ExpiryOfNumbers(raw, 9, 2027);
    assert 2027 / 1000 == 2 && 2027 / 100 % 10 == 0 && 2027 / 10 % 10 == 2 && 2027 % 10 == 7;
  }

  /** A two-character month and the year are used verbatim. */
  lemma ExpiryKeepsStrings()
    ensures Expiry(Obj(map["exp_month" := Str("12"), "exp_year" := Str("27")])) == Some("12/27")
  {
    var raw := Obj(map["exp_month" := Str("12"), "exp_year" := Str("27")]);
    assert Prop(raw, "exp_month") == Str("12") && Prop(raw, "exp_year") == Str("27");
    assert PadStart("12", 2, '0') == "12";
    assert "12" + "/" + "27" == "12/27";
    assert Expiry(raw) == Some(FormatExpiry("12", "27"));
  }

  /** A month of 0 is falsy, so there is no expiry. */
  lemma ExpiryNeedsTruthyMonth()
    ensures Expiry(Obj(map["exp_month" := Num(0), "exp_year" := Num(2026)])) == None
  {
    var raw := Obj(map["exp_month" := Num(0), "exp_year" := Num(2026)]);
    assert Prop(raw, "exp_month") == Num(0);
  }

  /** `validMinutes` is present exactly when `q.expire_minutes ?? r.expire_minutes`
      is not `undefined`; a null in the query with nothing in the redeem is absent. */
  lemma ValidMinutesPresence(q: Value, r: Value)
    ensures ValidMinutes(q, r).Some? <==>
      NotNullish(Prop(q, "expire_minutes")) || !Prop(r, "expire_minutes").Undefined?
    ensures ValidMinutes(q, r).Some? ==>
      ValidMinutes(q, r).value == (if NotNullish(Prop(q, "expire_minutes")) then Prop(q, "expire_minutes")
                                   else Prop(r, "expire_minutes"))
  {
  }

  /** The verdict is ok exactly when a success signal was seen and the card
      has a non-empty number or CVV. */
  lemma OkRule(redeem: Upstream, query: Upstream, startedAt: string)
    ensures var v := Reconcile(redeem, query, startedAt);
      v.ok <==> (Prop(query.data, "success") == Bool(true) || Prop(redeem.data, "success") == Bool(true))
                && v.card.Some? && (Filled(v.card.value.cardNumber) || Filled(v.card.value.cvv))
  {
    SuccessSignal(redeem, query);
  }

  /** A truthy card field (`pan`, `cvv`, `expire_time`) always fills its
      card record field, unless it is an array that prints as "". */
  lemma TruthyFieldIsFilled(raw: Value, field: string)
    requires Truthy(Prop(raw, field)) && !Prop(raw, field).Arr?
    ensures Filled(StrIfTruthy(Prop(raw, field)))
  {
    TruthyPrintsNonEmpty(Prop(raw, field));
  }

  /** The failure message is the first truthy candidate; the generic message
      at the end guarantees there is one. */
  lemma FailureMessageIsFirstTruthy(q: Value, r: Value)
    ensures var cs := ErrorCandidates(q, r);
      var i := FirstKept(cs, Truthy);
      i < |cs| && FailureMessage(q, r) == cs[i] && Truthy(cs[i])
  {
    var cs := ErrorCandidates(q, r);
    ChainIsFirstKept(cs, Truthy);
    assert Truthy(cs[4]);
  }

  /** There is an error exactly when the verdict is not ok; it is then the
      first truthy of the query's `error` and `message`, the redeem's `error`
      and `message`, and the generic message, so it is always truthy. */
  lemma ErrorSelection(redeem: Upstream, query: Upstream, startedAt: string)
    ensures var v := Reconcile(redeem, query, startedAt);
      var cs := ErrorCandidates(query.data, redeem.data);
      var i := FirstKept(cs, Truthy);
      && (v.error.None? <==> v.ok)
      && i < |cs|
      && (v.error.Some? ==> v.error.value == cs[i] && Truthy(v.error.value))
  {
    var q, r := DataOrEmpty(query), DataOrEmpty(redeem);
    assert ErrorCandidates(q, r) == ErrorCandidates(query.data, redeem.data) by {
      DataDefaultsToEmptyObject(query, "error");
      DataDefaultsToEmptyObject(query, "message");
      DataDefaultsToEmptyObject(redeem, "error");
      DataDefaultsToEmptyObject(redeem, "message");
    }
    FailureMessageIsFirstTruthy(q, r);
  }

  /** `used_time ?? used_time ?? startedAt` is never nullish and picks the
      first present operand. */
  lemma ActivatedAtChoice(q: Value, r: Value, startedAt: string)
    ensures var a := ActivatedAt(q, r, startedAt);
      var qt, rt := Prop(q, "used_time"), Prop(r, "used_time");
      && NotNullish(a)
      && (NotNullish(qt) ==> a == qt)
      && (Nullish(qt) && NotNullish(rt) ==> a == rt)
      && (Nullish(qt) && Nullish(rt) ==> a == Str(startedAt))
  {
    var vs := [Prop(q, "used_time"), Prop(r, "used_time"), Str(startedAt)];
    ChainIsFirstKept(vs, NotNullish);
  }

  /** The activation time is never nullish: the query's `used_time`, else the
      redeem's, else the start of the request. */
  lemma ActivatedAtFallback(redeem: Upstream, query: Upstream, startedAt: string)
    ensures var a := Reconcile(redeem, query, startedAt).activatedAt;
      var qt, rt := Prop(query.data, "used_time"), Prop(redeem.data, "used_time");
      && NotNullish(a)
      && (NotNullish(qt) ==> a == qt)
      && (Nullish(qt) && NotNullish(rt) ==> a == rt)
      && (Nullish(qt) && Nullish(rt) ==> a == Str(startedAt))
  {
    DataDefaultsToEmptyObject(query, "used_time");
    DataDefaultsToEmptyObject(redeem, "used_time");
    ActivatedAtChoice(DataOrEmpty(query), DataOrEmpty(redeem), startedAt);
  }

  /** The start time matters only when neither body has a `used_time`. */
  lemma StartTimeOnlyAsFallback(redeem: Upstream, query: Upstream, t1: string, t2: string)
    requires NotNullish(Prop(query.data, "used_time")) || NotNullish(Prop(redeem.data, "used_time"))
    ensures Reconcile(redeem, query, t1) == Reconcile(redeem, query, t2)
  {
    ActivatedAtFallback(redeem, query, t1);
    ActivatedAtFallback(redeem, query, t2);
  }

  /** The failure message when both bodies carry only an `error` string. */
  lemma ErrorStringsOnly(q: Value, r: Value, e1: string, e2: string)
    requires q == Obj(map["error" := Str(e2)]) && r == Obj(map["error" := Str(e1)])
    ensures FailureMessage(q, r) == Str(if e2 != "" then e2 else if e1 != "" then e1 else GenericFailure)
  {
    var cs := ErrorCandidates(q, r);
    assert cs == [Str(e2), Undefined, Str(e1), Undefined, Str(GenericFailure)];
    FailureMessageIsFirstTruthy(q, r);
    var i := FirstKept(cs, Truthy);
    if e2 != "" {
      assert i == 0;
    } else if e1 != "" {
      assert !Truthy(cs[0]) && !Truthy(cs[1]) && Truthy(cs[2]);
      assert i == 2;
    } else {
      assert !Truthy(cs[0]) && !Truthy(cs[1]) && !Truthy(cs[2]) && !Truthy(cs[3]);
      assert i == 4;
    }
  }

  /** Both calls threw: no card, not ok, the start time, and the query's
      exception text as the error (the redeem's if that is empty). */
  lemma BothCallsFailed(e1: string, e2: string, startedAt: string)
    ensures Reconcile(Failed(e1), Failed(e2), startedAt) ==
      Verdict(false, Some(Str(if e2 != "" then e2 else if e1 != "" then e1 else GenericFailure)),
              Str(startedAt), None)
  {
    var q, r := Obj(map["error" := Str(e2)]), Obj(map["error" := Str(e1)]);
    assert Prop(q, "card") == Undefined && Prop(r, "card") == Undefined;
    assert CardOf(q, r) == None;
    assert Prop(q, "used_time") == Undefined && Prop(r, "used_time") == Undefined;
    ActivatedAtChoice(q, r, startedAt);
    ErrorStringsOnly(q, r, e1, e2);
  }

  /** The card of the end-to-end case below: number, CVV and a padded expiry. */
  lemma AlreadyRedeemedCard(card: Value, q: Value, r: Value)
    requires Prop(card, "pan") == Str("4111111111111111") && Prop(card, "cvv") == Str("123")
    requires Prop(card, "exp_month") == Num(9) && Prop(card, "exp_year") == Num(2027)
    requires Prop(card, "expire_time") == Undefined
    requires Prop(q, "expire_minutes") == Undefined && Prop(r, "expire_minutes") == Undefined
    ensures BuildCard(card, q, r) == Card(Some("4111111111111111"), Some("123"), Some("09/2027"), None, None)
  {
    ExpiryPadsMonth(card);
    assert StrIfTruthy(Prop(card, "pan")) == Some("4111111111111111");
    assert StrIfTruthy(Prop(card, "cvv")) == Some("123");
  }

  /** The end-to-end case: a redeem that failed with "already redeemed" and
      a query that reports the card and its activation time. */
  lemma AlreadyRedeemedExample(redeem: Upstream, query: Upstream, card: Value, startedAt: string)
    requires Prop(redeem.data, "success") == Bool(false) && Prop(redeem.data, "error") == Str("already redeemed")
    requires Prop(redeem.data, "expire_minutes") == Undefined
    requires Prop(query.data, "success") == Bool(true) && Prop(query.data, "card") == card
    requires Prop(query.data, "used_time") == Str("2025-01-01T00:00:00Z")
    requires Prop(query.data, "expire_minutes") == Undefined
    requires Prop(card, "pan") == Str("4111111111111111") && Prop(card, "cvv") == Str("123")
    requires Prop(card, "exp_month") == Num(9) && Prop(card, "exp_year") == Num(2027)
    requires Prop(card, "expire_time") == Undefined
    ensures var v := Reconcile(redeem, query, startedAt);
      && v.ok && v.error.None?
      && v.activatedAt == Str("2025-01-01T00:00:00Z")
      && v.card == Some(Card(Some("4111111111111111"), Some("123"), Some("09/2027"), None, None))
  {
    var q, r := query.data, redeem.data;
    assert DataOrEmpty(query) == q && DataOrEmpty(redeem) == r;
    AlreadyRedeemedCard(card, q, r);
    ActivatedAtFallback(redeem, query, startedAt);
  }

  // ---------------------------------------------------------------------------
  // The handler

  /** The whole request: read the body, then call redeem and query in that
      order with the same payload, then reconcile. */
  function Handle(parsed: Option<Value>, upstream: Call -> Upstream, startedAt: string): (o: Outcome)
    ensures o.reply.Rejected? <==> o.calls == []
    ensures o.calls != [] ==>
      && |o.calls| == 2
      && o.calls[0].endpoint == RedeemEndpoint && o.calls[1].endpoint == QueryEndpoint
      && o.calls[0].payload == o.calls[1].payload
      && o.reply.redeemStatus == upstream(o.calls[0]).status
      && o.reply.queryStatus == upstream(o.calls[1]).status
  {
    match Prepare(parsed)
    case Reject(message) => Outcome(Rejected(message), [])
    case Forward(_, payload) =>
      var redeemCall, queryCall := Call(RedeemEndpoint, payload), Call(QueryEndpoint, payload);
      var redeem, query := upstream(redeemCall), upstream(queryCall);
      Outcome(Answered(Reconcile(redeem, query, startedAt), redeem.status, query.status), [redeemCall, queryCall])
  }

  /** A rejected request answers 400, calls nothing upstream, and its answer
      does not depend on the upstream service. */
  lemma RejectionMakesNoCall(parsed: Option<Value>, up1: Call -> Upstream, up2: Call -> Upstream, startedAt: string)
    requires Prepare(parsed).Reject?
    ensures Handle(parsed, up1, startedAt).calls == []
    ensures HttpStatus(Handle(parsed, up1, startedAt).reply) == 400
    ensures Handle(parsed, up1, startedAt) == Handle(parsed, up2, startedAt)
  {
  }

  /** An accepted request calls redeem and then query, both with the same
      payload, and answers 200 with their statuses, whatever either returned. */
  lemma AcceptedCallsRedeemThenQuery(parsed: Option<Value>, upstream: Call -> Upstream, startedAt: string)
    requires Prepare(parsed).Forward?
    ensures var o := Handle(parsed, upstream, startedAt);
      var p := Prepare(parsed).payload;
      && o.calls == [Call(RedeemEndpoint, p), Call(QueryEndpoint, p)]
      && HttpStatus(o.reply) == 200
      && o.reply == Answered(Reconcile(upstream(o.calls[0]), upstream(o.calls[1]), startedAt),
                             upstream(o.calls[0]).status, upstream(o.calls[1]).status)
  {
  }

  /** Both calls threw: the meta statuses are 500 and 500 and no card is returned. */
  lemma HandleWhenBothCallsFail(parsed: Option<Value>, e1: string, e2: string, startedAt: string)
    requires Prepare(parsed).Forward?
    ensures var upstream := (c: Call) => if c.endpoint == RedeemEndpoint then Failed(e1) else Failed(e2);
      var reply := Handle(parsed, upstream, startedAt).reply;
      reply.Answered? && reply.redeemStatus == 500 && reply.queryStatus == 500
      && !reply.verdict.ok && reply.verdict.card.None?
  {
    BothCallsFailed(e1, e2, startedAt);
  }
}
