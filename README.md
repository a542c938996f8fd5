# zlkj-card: redeem-and-query proxy, modelled in Dafny

The web application lets a user paste a redemption key (卡密). The server
route `POST /api/redeem-query` does four things:

1. It picks the key out of the request body.
2. It forwards the key to an upstream card service twice, first to "redeem" and then to "query".
3. It reconciles the two loosely shaped answers into one verdict: `ok`, `error`, `activatedAt` and a `card` record.
4. The page then shows the card number in blocks of four digits, together with the activation time.

The model has five files:

- `Wrappers.dfy` holds `Option`.
- `Js.dfy` holds the part of JavaScript's value semantics that the code relies on:
  - decoded JSON values, plus `undefined`;
  - truthiness and nullishness;
  - `??` and `||` as left-grouped chains, with their first-kept characterisation;
  - optional property access;
  - `String(...)` of integers and arrays;
  - `padStart`.
- `RedeemQuery.dfy` holds the route:
  - `Prepare` covers the body, the key and the 400 answers;
  - `Reconcile` computes the verdict;
  - `Handle` is the whole request. It is parameterised by the upstream service, a function from the call made to the response received, and it reports the calls it made, in order.
- `RouteReply.dfy` holds the JSON body sent back. Undefined fields are dropped.
- `Page.dfy` holds `formatCardNumber`, `formatTime` and the choice of the activation time that is shown. It also holds the lemma connecting the route's reply to what the page displays.

The model keeps these behaviours of the code as written:

- The card number is read from `pan` only. No other alias is read.
- A card record is returned whenever the card source is truthy, even with no number and no CVV. Only `ok` depends on a number or CVV being present.
- When both upstream calls throw, for example on a timeout, the error is the query's exception text, or the redeem's if that is empty. The generic failure message appears only when both texts are empty. See `RedeemQuery.BothCallsFailed`.
- `validMinutes` is `Number(...)` of any value that is not `undefined`, with no check against `NaN`.
- The query's `card` wins whenever it is not nullish, even when it is falsy. In that case no card is returned at all, even if the redeem call returned one.
- `activatedAt` is the query's `used_time`, else the redeem's, else the request start time. It does not depend on which call the card came from.
- The page prefers a card `redeemTime`, but the route never sends one. The page therefore always shows the route's `activatedAt`; see `Page.ShownActivationTime`.

## Model

| member | source | states |
|---|---|---|
| Js.ChainIsFirstKept | app/api/redeem-query/route.ts:46-51 | a chain of `??` (or of logical or) yields its first non-nullish (truthy) operand, and its last operand when none is |
| Js.FirstKept | app/api/redeem-query/route.ts:102-105 | the index found is the first that passes the test: every earlier operand fails it |
| Js.PadStart | app/api/redeem-query/route.ts:86 | `padStart(n, c)` is `c` repeated (n minus the length of `s`) times followed by `s`; its length is the larger of the two |
| Js.Decimal | app/api/redeem-query/route.ts:86 | `String` of a natural number is a non-empty run of digits with no leading zero |
| Js.DecimalValue | app/api/redeem-query/route.ts:86 | the printed digits denote the number printed (`DigitsValue(Decimal(n)) == n`) |
| Js.ToStr | app/api/redeem-query/route.ts:82-93 | `String(v)` of a JSON value; its contract is carried by `Decimal`, `DecimalValue`, `OneDigit`, `FourDigits`, `TruthyPrintsNonEmpty` and `TruthyArrayMayPrintEmpty` |
| Js.Truthy | app/api/redeem-query/route.ts:53 | JavaScript's ToBoolean; the lemmas that rely on it are `PrepareAcceptsExactly`, `CardSourcePreference`, `ExpiryPresence`, `OkRule` and `ErrorSelection` |
| Js.Prop | app/api/redeem-query/route.ts:77-98 | optional property access `v?.name`; its contract is carried by `KeyNeedsObject` and `DataDefaultsToEmptyObject` |
| Js.OneDigit | app/api/redeem-query/route.ts:86 | a month 1..9 prints as one digit and pads to "0" and that digit |
| Js.FourDigits | app/api/redeem-query/route.ts:86 | a four-digit year prints as its four decimal digits |
| Js.TruthyPrintsNonEmpty | app/api/redeem-query/route.ts:82-83 | every truthy value except an array prints as a non-empty string |
| Js.TruthyArrayMayPrintEmpty | app/api/redeem-query/route.ts:100 | `[]` and `[null]` are truthy but print as "", so they fill no card field |
| RedeemQuery.HttpStatus | app/api/redeem-query/route.ts:42-54 | the status is 400 exactly for a rejected request |
| RedeemQuery.SelectKey | app/api/redeem-query/route.ts:46-51 | the five-alias `??` chain; its contract is `KeyIsFirstNonNullishAlias` and `KeyNeedsObject` |
| RedeemQuery.Prepare | app/api/redeem-query/route.ts:38-57 | a forwarded payload carries a non-empty `key_id` equal to the key; a rejection carries one of the two 400 messages; see also `PrepareAcceptsExactly` and `PayloadOverwritesOnlyKeyId` |
| RedeemQuery.KeyIsFirstNonNullishAlias | app/api/redeem-query/route.ts:46-51 | the key is the value of the first of key_id, key, code, cardKey, token that is not nullish; it is nullish iff all five are |
| RedeemQuery.KeyNeedsObject | app/api/redeem-query/route.ts:40-51 | a body that is not an object selects `undefined` |
| RedeemQuery.PrepareAcceptsExactly | app/api/redeem-query/route.ts:38-55 | invalid JSON is rejected with its message; otherwise the body is forwarded iff the key is a non-empty string, and rejected with the missing-key message if not |
| RedeemQuery.PayloadOverwritesOnlyKeyId | app/api/redeem-query/route.ts:57 | the payload is the body object with `key_id` set to the key and every other field unchanged |
| RedeemQuery.Reconcile | app/api/redeem-query/route.ts:74-105 | an error exactly when not ok, and then a truthy one; a card whenever ok; an activation time that is never nullish |
| RedeemQuery.CardOf | app/api/redeem-query/route.ts:79-95 | the card built from the card source; its contract is `CardSourcePreference`, `FalsyQueryCardHidesRedeemCard` and `EmptyCardIsStillReturned` |
| RedeemQuery.BuildCard | app/api/redeem-query/route.ts:81-94 | the five card fields; `CardSourcePreference` ties all five, `validMinutes` included, to the verdict's card, and `ValidMinutesPresence`, `TruthyFieldIsFilled` and `AlreadyRedeemedCard` state their values |
| RedeemQuery.Expiry | app/api/redeem-query/route.ts:84-87 | the expiry field; its contract is `ExpiryPresence`, `ExpiryFormat` and `ExpiryOfNumbers` |
| RedeemQuery.DataDefaultsToEmptyObject | app/api/redeem-query/route.ts:74-75 | falsy `data` reads as `{}`; every property reads the same as from `data` itself |
| RedeemQuery.VerdictIgnoresHttpStatus | app/api/redeem-query/route.ts:74-105 | the verdict depends on the upstream bodies only, never on status or `ok` |
| RedeemQuery.SuccessSignal | app/api/redeem-query/route.ts:77 | success iff either body's `success` is literally `true` |
| RedeemQuery.CardSourcePreference | app/api/redeem-query/route.ts:79-95 | the card source is the query card if not nullish, else the redeem card; a card exists iff that source is truthy; its number, CVV, expiry and expire time are read from it, and its `validMinutes` from the two bodies' `expire_minutes`; a non-nullish query card makes the redeem card irrelevant |
| RedeemQuery.FalsyQueryCardHidesRedeemCard | app/api/redeem-query/route.ts:79-80 | a query `card: false` hides a valid redeem card: no card and not ok |
| RedeemQuery.EmptyCardIsStillReturned | app/api/redeem-query/route.ts:80-100 | a truthy empty card object yields an all-absent card record and a not-ok verdict |
| RedeemQuery.ExpiryFormat | app/api/redeem-query/route.ts:86 | the expiry is the month padded with "0" to two characters, "/", then the year; its length; a long month is kept as is |
| RedeemQuery.ExpiryPresence | app/api/redeem-query/route.ts:84-87 | an expiry is present iff month and year are both truthy, and is then the printed month left-padded with '0' to two characters, '/', and the printed year |
| RedeemQuery.ExpiryOfNumbers | app/api/redeem-query/route.ts:84-87 | month 1..9 and a four-digit year give the seven characters "0M/YYYY" |
| RedeemQuery.ExpiryPadsMonth | app/api/redeem-query/route.ts:86 | month 9 and year 2027 give "09/2027" |
| RedeemQuery.ExpiryKeepsStrings | app/api/redeem-query/route.ts:86 | month "12" and year "27" give "12/27" |
| RedeemQuery.ExpiryNeedsTruthyMonth | app/api/redeem-query/route.ts:85 | month 0 gives no expiry |
| RedeemQuery.ValidMinutesPresence | app/api/redeem-query/route.ts:88-91 | `validMinutes` is present iff `q.expire_minutes ?? r.expire_minutes` is not undefined, and is then that value |
| RedeemQuery.OkRule | app/api/redeem-query/route.ts:100 | ok iff a success signal was seen and the card has a non-empty number or CVV |
| RedeemQuery.TruthyFieldIsFilled | app/api/redeem-query/route.ts:82-93 | a truthy card field (`pan`, `cvv`, `expire_time`) that is not an array always yields a non-empty record field |
| RedeemQuery.FailureMessageIsFirstTruthy | app/api/redeem-query/route.ts:102-105 | the failure message is the first truthy of q.error, q.message, r.error, r.message and the generic message, so it is always truthy |
| RedeemQuery.ErrorSelection | app/api/redeem-query/route.ts:102-105 | there is an error iff the verdict is not ok; it is then the first truthy candidate read from the raw bodies |
| RedeemQuery.ActivatedAtChoice | app/api/redeem-query/route.ts:98 | `used_time ?? used_time ?? startedAt` is never nullish and picks the first present operand |
| RedeemQuery.ActivatedAtFallback | app/api/redeem-query/route.ts:98 | the activation time is the query's `used_time`, else the redeem's, else the start time; never nullish |
| RedeemQuery.StartTimeOnlyAsFallback | app/api/redeem-query/route.ts:36-98 | when either body has a `used_time`, the start time does not affect the verdict |
| RedeemQuery.ErrorStringsOnly | app/api/redeem-query/route.ts:60-105 | with only thrown-error bodies, the message is the query's text, else the redeem's, else the generic message |
| RedeemQuery.BothCallsFailed | app/api/redeem-query/route.ts:60-105 | both calls throwing gives not ok, no card, the start time, and that error text |
| RedeemQuery.AlreadyRedeemedCard | app/api/redeem-query/route.ts:79-95 | the query card of the end-to-end example becomes number "4111111111111111", CVV "123", expiry "09/2027" |
| RedeemQuery.AlreadyRedeemedExample | app/api/redeem-query/route.ts:59-105 | a failed "already redeemed" redeem plus a successful query gives ok, no error, that card and the query's `used_time` |
| RedeemQuery.Handle | app/api/redeem-query/route.ts:35-113 | no call exactly when rejected; otherwise redeem then query with the same payload, and their statuses in the reply |
| RedeemQuery.RejectionMakesNoCall | app/api/redeem-query/route.ts:38-55 | a rejected request makes no upstream call, answers 400, and does not depend on the upstream service |
| RedeemQuery.AcceptedCallsRedeemThenQuery | app/api/redeem-query/route.ts:57-71 | an accepted request calls redeem then query with the same payload, answers 200, and reconciles their answers with their statuses |
| RedeemQuery.HandleWhenBothCallsFail | app/api/redeem-query/route.ts:59-113 | both calls failing gives statuses 500 and 500, not ok and no card |
| RouteReply.ReplyJson | app/api/redeem-query/route.ts:107-113 | the JSON body; its contract is `ReplyShape` and `CardJsonFields` |
| RouteReply.CardJsonFields | app/api/redeem-query/route.ts:80-95 | the serialised card carries each present record field and lacks each absent one, and never has `redeemTime` |
| RouteReply.ReplyShape | app/api/redeem-query/route.ts:107-113 | the body carries `ok`; `error` is the rejection message, the verdict's error, or absent; unless rejected it carries `activatedAt`, the card exactly when the verdict has one, and both statuses under `meta` |
| Page.Remove | app/page.tsx:19 | removal leaves no selected character and never lengthens the string; with `RemoveKeepsOthers`, `RemoveNothing` and `RemoveAppend` every other character survives in order |
| Page.RemoveKeepsOthers | app/page.tsx:19 | every character not removed occurs in the result as often as in the input |
| Page.RemoveNothing | app/page.tsx:19 | removing characters that are not there changes nothing |
| Page.RemoveAppend | app/page.tsx:19 | removal distributes over concatenation, so order is kept |
| Page.GroupDigits | app/page.tsx:20 | grouping keeps the first and last characters of a non-empty string |
| Page.GroupingOnlyInsertsSpaces | app/page.tsx:20 | grouping only inserts spaces: removing spaces (or any class that contains the space) gives the same result before and after |
| Page.TrimKeeps | app/page.tsx:20 | trim keeps a string that neither starts nor ends with whitespace |
| Page.FormatCardNumber | app/page.tsx:18-21 | `formatCardNumber`; its contract is `FormatKeepsCharacters`, `FormatIdempotent`, `FormatDigits` and `NoLongRunUnchanged` |
| Page.FormatDoesNotNeedTrim | app/page.tsx:18-21 | the final `trim()` never removes anything |
| Page.FormatKeepsCharacters | app/page.tsx:18-21 | the output without its spaces equals the input without its whitespace, and the output holds no whitespace except those spaces |
| Page.FormatIdempotent | app/page.tsx:18-21 | formatting a formatted number changes nothing |
| Page.ShortUnchanged | app/page.tsx:20 | a string of at most four characters is unchanged |
| Page.NoLongRunUnchanged | app/page.tsx:20 | a string with no run of five digits is unchanged |
| Page.GroupDigitsIsChunk | app/page.tsx:20 | on digits, the regex scan equals the reference layout of blocks of four |
| Page.ChunkLayout | app/page.tsx:20 | the layout has length n + (n-1)/4, a space exactly at every fifth position, and digit i - i/5 at every other position i |
| Page.ChunkSpaces | app/page.tsx:20 | n digits get (n-1)/4 spaces |
| Page.FormatDigits | app/page.tsx:18-21 | an all-digit input, after its whitespace is removed, is shown as blocks of four with the layout and space count above |
| Page.FormatTime | app/page.tsx:23-28 | a falsy input shows "--"; an input that does not parse is shown as it prints |
| Page.ActivatedAtText | app/page.tsx:37-40 | the shown activation time; its contract is `ActivatedAtPreference` and `ShownActivationTime` |
| Page.ActivatedAtPreference | app/page.tsx:37-40 | a truthy card `redeemTime` is shown; otherwise `activatedAt`; "--" when neither is truthy |
| Page.ShownActivationTime | app/page.tsx:37-40 | for every reply of the route, the page shows the verdict's `activatedAt`, or "--" for a rejection |

## Left out

- Js.ToStr: `String(v)` and template literals throw a `TypeError` on an object with its own non-callable `toString` (for example an upstream `card.pan` of `{"toString": 1}`). That throw happens outside any `try`, so the route answers 500. The model prints such an object as "[object Object]" instead.
- Js.ToStr: JSON integers above 2^53, such as a 19-digit numeric `pan`, are rounded when parsed, so `String` prints other digits. The model prints the exact integer.
- Js.PadStart: `padStart` counts UTF-16 code units. The model counts Dafny characters, so a month outside the Basic Multilingual Plane is padded differently.
- Numbers are integers. JavaScript's floating point is not modelled: fractions, `NaN`, infinities, and the exponent notation `String` uses from 1e21 on.
- `Number(...)` of `validMinutes` appears only as the `toNumber` parameter of `RouteReply.ReplyJson`. `Card.validMinutes` keeps the raw coalesced value.
- `postJson` is not modelled: the network, the 15-second abort timer, and reading and parsing the response text. An upstream answer is any `Upstream` value, whose `data` may be `null` or `{ raw: text }` like any other value. A thrown call is the `Failed(text)` value, where `text` stands for `String(e)`.
- `request.json()` is reduced to its outcome: a parsed value, or `None` for invalid JSON.
- `new Date().toISOString()` is the `startedAt` parameter.
- Page.FormatTime: date parsing and `toLocaleString("zh-CN")` are the `parse` and `show` parameters, so only the branch structure is modelled.
- Strings: JavaScript strings are UTF-16 code units, while Dafny `char`s are Unicode scalar values. `\d` is ASCII `0`-`9` in both, so grouping is unaffected.
- The key order of the object built by `{ ...body, key_id }` and of the JSON reply is not modelled: objects are maps.
- The React component is not modelled: its state, the `fetch` to the route, the key trimming before submission, and rendering.
- `app/api/redeem/route.ts`, `app/layout.tsx` and `tailwind.config.js` are not part of this model.
