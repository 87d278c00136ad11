# Random node: a verified model of its execution routine

The Random node is a community node for n8n. Its one operation, "generate",
asks random.org for a truly random integer. For every input item, the
node's `execute` routine does the following:

- It checks that the operation is "generate".
- It reads the item's `min` and `max` parameters and refuses any that are
  not finite numbers.
- It floors both parameters and swaps them if they are given the wrong way
  round.
- It refuses a range that reaches outside random.org's limits of
  -1,000,000,000 and 1,000,000,000.
- It sends one GET request to `https://www.random.org/integers/` with a
  10-second timeout.
- It reads the plain-text answer with `parseInt(body.trim(), 10)`.
- It emits `{randomNumber, min, max, source: "random.org"}`.

The first item that fails aborts the whole run with an operation error that
carries the item's index. No later item is looked at, and no later request
is sent.

The project has five modules:

- `Wrappers` holds `Option` and `Result`.
- `NodeErrors` holds the error kinds and the error with its item index.
- `Parameters` holds the parameter values and the normalisation of a
  `min`/`max` pair.
- `ResponseParsing` models JavaScript's `trim` and `parseInt` with radix 10.
- `RandomNode` holds the request, one item's step and the loop.

The per-item step and the loop are imperative, as in the source:
`TryItem` and `Execute`. They are proved against the functional
specification `ProcessItem`, `Run` and `Sent`, and the lemmas state what
that specification promises.

The HTTP helper is an oracle. `oracle[i]` is the transport's answer to
item `i`'s request: either a response body or a failure with its message.
The loop stops at the first failure, and every item that passes validation
makes exactly one call. So the i-th entry is always the answer to item i,
and it is never consulted for an item that sends nothing. `Execute` also
returns the requests it sent, in order, so the model can state which items
reach random.org.

Parameter values are exact reals, plus NaN and the two infinities.
`Math.floor` becomes `.Floor`.

The repository's test suite expects a `timestamp` field in the output
record, at `tests/nodes/Random/Random.node.test.ts` line 116. The code never
emits one. The model follows the code.

## Model

| member | source | states |
|---|---|---|
| Parameters.Normalize | nodes/Random/Random.node.ts:89-131 | Fails with NonFiniteParameter exactly when `min` or `max` is NaN or infinite. Otherwise it fails with OutOfRange, or yields an ordered range `lo <= hi` that lies inside [-1,000,000,000, 1,000,000,000]. |
| Parameters.NormalizeFloors | nodes/Random/Random.node.ts:97-99 | Flooring never rounds up. `lo` is at most both parameters and is within 1 of one of them. `hi` is at most one of them and is within 1 of both. So `lo` is the floor of the smaller parameter and `hi` the floor of the larger. |
| Parameters.NormalizeFinite | nodes/Random/Random.node.ts:97-131 | For finite parameters, the result is the pair (smaller floor, larger floor), unless the smaller is below -1e9 or the larger above 1e9, in which case it is OutOfRange. |
| Parameters.NormalizeSymmetric | nodes/Random/Random.node.ts:101-104 | Swapping `min` and `max` never changes the result. |
| Parameters.NormalizeIntegers | nodes/Random/Random.node.ts:97-104 | Integer parameters within the bounds, given in either order, normalise to (smaller, larger). |
| Parameters.NormalizeExamples | tests/nodes/Random/Random.node.test.ts:136-248 | 1.7/10.9 gives 1..10, -0.5 floors to -1, 100/50 is swapped to 50..100, and the exact bounds are accepted. -2e9 is refused in either position, and NaN is refused as non-finite. |
| ResponseParsing.IsJsWhitespace | nodes/Random/Random.node.ts:135 | The white-space set that `trim` and `parseInt` share: ECMAScript's WhiteSpace and LineTerminator code points (tab, LF, VT, FF, CR, space, U+00A0, U+1680, U+2000-U+200A, U+2028, U+2029, U+202F, U+205F, U+3000, U+FEFF). No contract of its own; WhitespaceIsNotDigit shows it holds no digit or sign. |
| ResponseParsing.TrimStart | nodes/Random/Random.node.ts:135 | The result is a suffix of the text that does not start with white space, and everything dropped is white space. |
| ResponseParsing.TrimEnd | nodes/Random/Random.node.ts:135 | The result is a prefix of the text that does not end with white space, and everything dropped is white space. |
| ResponseParsing.Trim | nodes/Random/Random.node.ts:135 | `trim` is TrimEnd after TrimStart. Its meaning is carried by their contracts: what is left has no white space at either end, and only white space was dropped. |
| ResponseParsing.DigitRun | nodes/Random/Random.node.ts:135 | The length of the longest prefix of decimal digits: all digits, followed by a non-digit or the end. |
| ResponseParsing.ParseDigits | nodes/Random/Random.node.ts:135 | A number comes out exactly when the text starts with a digit. |
| ResponseParsing.ParseSigned | nodes/Random/Random.node.ts:135 | A number comes out exactly when the text starts with a digit, or with one sign followed by a digit. |
| ResponseParsing.ParseInt | nodes/Random/Random.node.ts:135-137 | Text without a single decimal digit gives NaN (`None`). |
| ResponseParsing.ParseIntSkipsLead | nodes/Random/Random.node.ts:135 | `parseInt` skips leading white space up to the first other character. |
| ResponseParsing.TrimIsRedundant | nodes/Random/Random.node.ts:135 | For every body, `parseInt(body.trim())` equals `parseInt(body)`. |
| ResponseParsing.ParseResponse | nodes/Random/Random.node.ts:135-141 | The node reads exactly what `parseInt` reads from the raw body. A number comes out, and so the item is not an invalid response, exactly when the body starts, after its leading white space, with a digit or with a sign followed by a digit. |
| ResponseParsing.DigitsValueShowNat | nodes/Random/Random.node.ts:135 | Reading back the decimal notation of a natural number gives that number. |
| ResponseParsing.ParseResponseLenient | nodes/Random/Random.node.ts:135-141 | The decimal notation of any integer, followed by anything that does not continue its digits, reads as that integer. |
| ResponseParsing.ParseResponsePlus | nodes/Random/Random.node.ts:135-141 | A leading '+' is accepted and leaves the value unchanged: '+' and the decimal notation of m, followed by anything that does not continue the digits, reads as m. |
| ResponseParsing.ParseResponseTolerant | nodes/Random/Random.node.ts:135-141 | The decimal notation of any integer, surrounded by any white space, reads as that integer. |
| ResponseParsing.ParseResponseNeedsDigit | nodes/Random/Random.node.ts:135-141 | A body without a decimal digit is always an invalid response. |
| ResponseParsing.ParseResponseTrailingNewline | tests/nodes/Random/Random.node.test.ts:100-117 | "42\n" reads as 42. |
| ResponseParsing.ParseResponseSurroundingWhitespace | tests/nodes/Random/Random.node.test.ts:184-190 | "  42  \n\r" reads as 42. |
| ResponseParsing.ParseResponseNegative | nodes/Random/Random.node.ts:135-141 | "-75\n" reads as -75. |
| ResponseParsing.ParseResponseIgnoresSuffix | nodes/Random/Random.node.ts:135-141 | "42abc" reads as 42. |
| ResponseParsing.ParseResponseNeedsLeadingDigit | nodes/Random/Random.node.ts:135-141 | "abc42" is an invalid response: digits that do not lead are not read. |
| ResponseParsing.ParseResponseRejectsText | tests/nodes/Random/Random.node.test.ts:250-270 | "invalid_response" is an invalid response. |
| RandomNode.BuildRequest | nodes/Random/Random.node.ts:106-123 | The request options for a normalised range. No contract of its own; RequestForIntegers and RequestWhenValid state what it asks for. |
| RandomNode.PrepareItem | nodes/Random/Random.node.ts:78-131 | The validation part of one item's `try` block. No contract of its own; RequestWhenValid states it. |
| RandomNode.RequestWhenValid | nodes/Random/Random.node.ts:78-131 | A request is built exactly when the operation is "generate" and the parameters normalise. The request is then the whole options object: a GET of `https://www.random.org/integers/` with num=1, the ordered in-bounds normalised min and max, col=1, base=10, format=plain and rnd=new, as plain text (not JSON), with a 10000 ms timeout and without the full response. Otherwise the error is InvalidOperation if the operation is wrong, else the normalisation error. |
| RandomNode.ProcessItem | nodes/Random/Random.node.ts:78-151 | One item's step. No contract of its own; ItemOutcome states it and TryItem computes it. |
| RandomNode.ItemOutcome | nodes/Random/Random.node.ts:78-151 | An item yields a record exactly when the operation is "generate", the parameters normalise, the call returns a body and the body reads as an integer. The record holds that integer, the ordered in-bounds normalised range, and "random.org". Otherwise the item fails with the operation error, the parameter error, the transport's message or InvalidResponse, in that order. An item failing validation does not depend on the transport's answer. |
| RandomNode.RunPrefix | nodes/Random/Random.node.ts:76-163 | After k items, the run holds exactly k records, or an error whose index is below k. |
| RandomNode.SentPrefix | nodes/Random/Random.node.ts:76-161 | At most one request per item is sent. |
| RandomNode.FailureIsFinal | nodes/Random/Random.node.ts:152-160 | Once an item has failed, later items change neither the outcome nor the requests sent. |
| RandomNode.RunPrefixCharacterised | nodes/Random/Random.node.ts:76-163 | A prefix succeeds exactly when all of its items do, and then holds their records in order. Otherwise it fails with the first failing item's error, and every earlier item succeeded. |
| RandomNode.SentPrefixCharacterised | nodes/Random/Random.node.ts:125-160 | The requests sent are those of the items up to the first failure, in order. The failing item's own request is included only when it failed at the call or after it. |
| RandomNode.ItemResultsSendWhenCalled | nodes/Random/Random.node.ts:125-141 | An item sends its request exactly when it succeeds, or fails with a transport failure or an invalid response. |
| RandomNode.Run | nodes/Random/Random.node.ts:71-164 | What `execute` returns or throws. No contract of its own; RunCharacterised states it and Execute computes it. |
| RandomNode.Sent | nodes/Random/Random.node.ts:71-164 | The requests `execute` sends, in order. No contract of its own; SentCharacterised states it and Execute computes it. |
| RandomNode.RunCharacterised | nodes/Random/Random.node.ts:71-164 | The whole run succeeds exactly when every item does, with one record per item in input order. Otherwise the error is the first failing item's, tagged with its index, and every earlier item succeeded. |
| RandomNode.SentCharacterised | nodes/Random/Random.node.ts:106-160 | Every request sent is the one its item builds. All items' requests are sent on success. On failure, the count is the failing index, plus one if the item failed at or after the call. |
| RandomNode.RecordsWellFormed | nodes/Random/Random.node.ts:143-151 | Every record of a successful run has source "random.org" and an ordered, in-bounds range that is its item's normalisation. Its number is what its item's response body reads as. |
| RandomNode.InvalidOperationFailsFirst | nodes/Random/Random.node.ts:74-82 | An operation other than "generate" fails on item 0 with nothing sent. With no items, the run succeeds with no records. |
| RandomNode.NonFiniteFirstItemSendsNothing | nodes/Random/Random.node.ts:89-95 | A non-finite `min` or `max` on the first item fails at index 0, and no request is sent at all. |
| RandomNode.RequestForIntegers | nodes/Random/Random.node.ts:106-123 | For in-bounds integer parameters, given in either order, the request is a GET of `https://www.random.org/integers/` with num=1, min and max the smaller and the larger parameter, col=1, base=10, format=plain and rnd=new. It asks for plain text (not JSON) and has a 10000 ms timeout. |
| RandomNode.ItemSucceeds | nodes/Random/Random.node.ts:132-151 | In-bounds integer parameters, in either order, with a body holding the decimal notation of n (plus non-digits), give the record {n, min, max, "random.org"}, and the item sends its request. |
| RandomNode.TwoItemsInOrder | tests/nodes/Random/Random.node.test.ts:119-134 | Two items whose answers are n0 and n1 give the records n0 then n1, in input order, after exactly two requests. |
| RandomNode.TryItem | nodes/Random/Random.node.ts:77-160 | The imperative try block computes exactly one item's specified outcome and the request it sends. |
| RandomNode.Execute | nodes/Random/Random.node.ts:71-164 | The loop returns the specified run outcome (records in order, or the first failing item's error) and sends exactly the specified requests. |

## Left out

- The HTTP call, its 10-second timeout and the network are an oracle of answers, one per item. Random.org's randomness is not modelled.
- Host plumbing is not modelled: `getInputData`, `getNodeParameter` and `getNode`. Items are given as their resolved `min`/`max` pairs. The operation is a single value, as the source reads it once for item 0.
- Error messages and `NodeOperationError`'s class are not modelled. Errors are kinds, plus the transport's message and the item index.
- RandomNode.ItemOutcome: every transport failure is treated as a plain `Error` re-raised with its message. A `NodeOperationError` raised by the HTTP helper itself would be re-thrown unchanged; that case is not distinguished.
- The node description is static metadata and is not modelled: display names, icon, parameter defaults and `minValue`/`maxValue` UI hints.
- IEEE-754 doubles are not modelled: parameters are exact reals and parsed values are unbounded integers. The model does not capture two things:
  - `parseInt` loses precision above 2^53.
  - `parseInt` returns Infinity for an enormous digit run; `Number.isInteger` then refuses it.
- -0 is the integer 0 in the model, both as a parsed value and as a parameter. In JavaScript, a body reading "-0" gives -0 as `randomNumber`. A `min` or `max` parameter of -0 floors to -0, and -0 > 0 is false, so it is neither refused nor swapped and is emitted as -0 in the record's `min` or `max`.
- Parameters that are not numbers at all are not modelled. The host is assumed to deliver numbers, NaN or infinities.
- The `timestamp` field that the test suite expects is not modelled, because the code never emits it.
- The test and lint configuration is not part of this model.
