/**
 The JSON body that `POST /api/redeem-query` sends back: `NextResponse.json`
 of the reply, where fields that are `undefined` are left out.
 */
module RouteReply {
  import opened Wrappers
  import opened Js
  import opened RedeemQuery

  function WithField(m: map<string, Value>, name: string, o: Option<Value>): map<string, Value> {
    if o.Some? then m[name := o.value] else m
  }

  function StrField(o: Option<string>): Option<Value> {
    if o.Some? then Some(Str(o.value)) else None
  }

  /** The serialised card: `undefined` fields are dropped; `toNumber` stands
      for `Number(...)` followed by JSON serialisation. */
  function CardJson(c: Card, toNumber: Value -> Value): Value {
    var minutes := if c.validMinutes.Some? then Some(toNumber(c.validMinutes.value)) else None;
    Obj(WithField(WithField(WithField(WithField(WithField(map[],
      "cardNumber", StrField(c.cardNumber)),
      "cvv", StrField(c.cvv)),
      "expiry", StrField(c.expiry)),
      "validMinutes", minutes),
      "expireTime", StrField(c.expireTime)))
  }

  /** The JSON body the client receives. */
  function ReplyJson(reply: Reply, toNumber: Value -> Value): Value {
    match reply
    case Rejected(message) => Obj(map["ok" := Bool(false), "error" := Str(message)])
    case Answered(v, redeemStatus, queryStatus) =>
      var card := if v.card.Some? then Some(CardJson(v.card.value, toNumber)) else None;
      var meta := Obj(map["redeemStatus" := Num(redeemStatus), "queryStatus" := Num(queryStatus)]);
      Obj(WithField(WithField(map["ok" := Bool(v.ok), "activatedAt" := v.activatedAt, "meta" := meta],
        "error", v.error), "card", card))
  }

  /** The serialised card carries each present field of the record, as a
      string (or `toNumber` of the raw minutes), and lacks each absent one. */
  lemma CardJsonFields(c: Card, toNumber: Value -> Value)
    ensures var j := CardJson(c, toNumber);
      && j.Obj?
      && Prop(j, "cardNumber") == (if c.cardNumber.Some? then Str(c.cardNumber.value) else Undefined)
      && Prop(j, "cvv") == (if c.cvv.Some? then Str(c.cvv.value) else Undefined)
      && Prop(j, "expiry") == (if c.expiry.Some? then Str(c.expiry.value) else Undefined)
      && Prop(j, "validMinutes") == (if c.validMinutes.Some? then toNumber(c.validMinutes.value) else Undefined)
      && Prop(j, "expireTime") == (if c.expireTime.Some? then Str(c.expireTime.value) else Undefined)
      && Prop(j, "redeemTime") == Undefined
  {
  }

  /** The reply carries `ok` and `error`; unless rejected it carries
      `activatedAt`, the card exactly when the verdict has one (with its
      fields), and both upstream statuses under `meta`; its card never
      carries a `redeemTime`. */
  lemma ReplyShape(reply: Reply, toNumber: Value -> Value)
    ensures var j := ReplyJson(reply, toNumber);
      && Prop(j, "ok") == Bool(if reply.Rejected? then false else reply.verdict.ok)
      && Prop(j, "activatedAt") == (if reply.Rejected? then Undefined else reply.verdict.activatedAt)
      && Prop(Prop(j, "card"), "redeemTime") == Undefined
    ensures var j := ReplyJson(reply, toNumber);
      Prop(j, "error") ==
        if reply.Rejected? then Str(reply.message)
        else if reply.verdict.error.Some? then reply.verdict.error.value
        else Undefined
    ensures var j := ReplyJson(reply, toNumber);
      && (Prop(j, "card").Obj? <==> reply.Answered? && reply.verdict.card.Some?)
      && (reply.Answered? && reply.verdict.card.Some? ==>
            Prop(j, "card") == CardJson(reply.verdict.card.value, toNumber))
    ensures var j := ReplyJson(reply, toNumber);
      && (reply.Answered? ==> Prop(Prop(j, "meta"), "redeemStatus") == Num(reply.redeemStatus))
      && (reply.Answered? ==> Prop(Prop(j, "meta"), "queryStatus") == Num(reply.queryStatus))
      && (reply.Rejected? ==> Prop(j, "meta") == Undefined)
  {
    match reply
    case Rejected(_) =>
    case Answered(v, redeemStatus, queryStatus) =>
      var meta := Obj(map["redeemStatus" := Num(redeemStatus), "queryStatus" := Num(queryStatus)]);
      var base := map["ok" := Bool(v.ok), "activatedAt" := v.activatedAt, "meta" := meta];
      var card := if v.card.Some? then Some(CardJson(v.card.value, toNumber)) else None;
      var withError := WithField(base, "error", v.error);
      assert Prop(meta, "redeemStatus") == Num(redeemStatus) && Prop(meta, "queryStatus") == Num(queryStatus);
      assert Prop(Obj(withError), "error") == (if v.error.Some? then v.error.value else Undefined);
      assert Prop(Obj(withError), "ok") == Bool(v.ok);
      assert Prop(Obj(withError), "activatedAt") == v.activatedAt;
      assert Prop(Obj(withError), "meta") == meta;
      assert Prop(Obj(withError), "card") == Undefined;
      if v.card.Some? {
        CardJsonFields(v.card.value, toNumber);
      }
  }
}
