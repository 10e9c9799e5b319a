# viva-utility `utils.ts` in Dafny

This project models the utility functions of `src/utils/utils.ts` and proves properties about them:

- the two rate limiters, `throttle` and `debounce`;
- the structural clones, `deepClone` and `clone`;
- the emptiness test `isEmptyObject`;
- the title-caser `capitalize`;
- the id generator `uniqueId`.

Modules:

- `Wrappers` (`wrappers.dfy`): the `Option` type used for the debounce wrapper's timer handle.
- `Numerals` (`numerals.dfy`): integers rendered as digit strings, the way `Number.prototype.toString(radix)` renders an integral number. It covers the base-36 clock fragment of `uniqueId` and the decimal index keys that object spread produces. Proved: reading a rendering back gives the number, and renderings are injective.
- `Values` (`values.dfy`): JavaScript values as a datatype with a case per kind: `undefined`, `null`, booleans, integral numbers, strings, functions, dates, arrays, and objects with the value their `constructor` property resolves to. On this type it models `isEmptyObject` (as written and as intended), `deepClone`, the `reduce` loop inside `deepClone` as a method, and `clone` (`{ ...obj }`).
- `Capitalizer` (`capitalizer.dfy`): `split(' ')`, the per-word capitalisation and `join(' ')`, related by an all-inputs lemma to a character-at-a-time definition.
- `Ids` (`ids.dfy`): `uniqueId`. The rendered random number and the clock reading are parameters.
- `RateLimiters` (`ratelimiters.dfy`): each wrapper is a class that takes the current time as a parameter. The class methods are specified by pure step functions, and the lemmas are about runs of those functions.
  - `Throttler` has the captured `lastCall`.
  - `Debouncer` has the captured timer handle as an optional `(due, args)` pair, and a `Tick` step that stands for the host timer firing.
  - Both record every run of the wrapped function in `ran`.

The clock (`Date.now()`), `Math.random()` and the host timer service are inputs to the model, not modelled.

Four behaviours of the code that are easy to misread, each modelled as the code has it:

- `throttle` starts from `lastCall = 0` (src/utils/utils.ts:29), not from "never called". So a call made before time `limit` is dropped (`ThrottleEarlyFirstCallDropped`).
- `isEmptyObject` returns its falsy input itself, not `false` (src/utils/utils.ts:14; see Findings).
- `clone` (src/utils/utils.ts:26) is defined on every value, non-objects included, the way object spread treats them: arrays and strings give index keys, and everything else gives `{}`.
- `deepClone` rebuilds every non-array, non-date object as a plain object (src/utils/utils.ts:20-23). A class instance therefore loses its constructor (`DeepCloneFixedPoint`).

## Model

| member | source | states |
|---|---|---|
| `Values.IsEmptyObjectAsWritten` | src/utils/utils.ts:13-14 | a falsy input is returned unchanged; a truthy input gives `true` exactly when it is an object with no keys whose constructor is `Object` |
| `Values.IsEmptyObject` | src/utils/utils.ts:13-14 | the intended boolean: true iff the value is a plain object (constructor `Object`) with zero keys |
| `Values.IsEmptyObjectReturnsFalsyInput` | src/utils/utils.ts:13-14 | `null`, `0` and `""` come back as themselves and `undefined` is not a boolean result |
| `Values.IsEmptyObjectAgreement` | src/utils/utils.ts:13-14 | the as-written result is truthy iff the intended result is true, and the two are equal on every truthy input |
| `Values.IsEmptyObjectCases` | src/utils/utils.ts:13-14 | arrays, dates, functions, strings, numbers, booleans and objects with another or no constructor are never empty objects; a plain object is empty iff it has zero keys |
| `Values.DeepClone` | src/utils/utils.ts:16-24 | the result holds only plain objects and is structurally equal to the input (same kinds, primitives, instants, lengths, key sets at every node) |
| `Values.ReduceKeys` | src/utils/utils.ts:20-23 | the accumulator loop ends with exactly the input's keys, each mapped to the deep clone of its value, whatever order the keys are visited in |
| `Values.DeepCloneUnique` | src/utils/utils.ts:16-24 | any value that holds only plain objects and has the structure and data of `v` is `deepClone(v)`: the two properties of the copy fix it completely |
| `Values.DeepCloneFixedPoint` | src/utils/utils.ts:16-24 | `deepClone(v) == v` iff every object in `v` is a plain object |
| `Values.DeepCloneIdempotent` | src/utils/utils.ts:16-24 | `deepClone(deepClone(v)) == deepClone(v)` |
| `Values.Clone` | src/utils/utils.ts:26 | the result is a new plain object; for an object input it has exactly the same top-level keys and values; for an array one key per element; for other non-strings no keys |
| `Values.CloneArray` | src/utils/utils.ts:26 | spreading an array gives key `i` (in decimal) set to element `i`, and no other keys |
| `Values.CloneString` | src/utils/utils.ts:26 | spreading a string gives one key per index holding the one-character string at that index |
| `Values.CloneProperties` | src/utils/utils.ts:16-26 | `clone` is idempotent, and for an object `deepClone(clone(v)) == deepClone(v)` |
| `Values.CloneIsShallow` | src/utils/utils.ts:16-26 | a nested class instance is kept as it is by `clone` but changed (made plain) by `deepClone`: `clone` does not recurse |
| `Values.UsageExamples` | src/utils/utils.ts:49-51 | `isEmptyObject({})` is true and `clone({x: 10})` is `{x: 10}` |
| `Values.DeepCloneExample` | src/utils/utils.ts:50 | `deepClone({a: 1, b: {c: 2}})` equals its input |
| `Capitalizer.UpperFacts` | src/utils/utils.ts:46 | upper-casing one character is idempotent, changes exactly the lower-case letters, sends them into `A`-`Z`, and keeps a space a space and nothing else |
| `Capitalizer.UpperOneToOne` | src/utils/utils.ts:46 | distinct lower-case letters have distinct capitals, so `a`-`z` map one-to-one onto `A`-`Z` |
| `Capitalizer.SplitCount` | src/utils/utils.ts:46 | `split(' ')` gives one more token than the string has spaces |
| `Capitalizer.CapitalizeIsReference` | src/utils/utils.ts:45-46 | split, capitalize each word and join equals the character-at-a-time definition (upper-case a character iff it is first or follows a space) |
| `Capitalizer.CapitalizeChars` | src/utils/utils.ts:45-46 | the length is kept; character `i` is upper-cased when it starts a token and unchanged otherwise |
| `Capitalizer.CapitalizeKeepsSpaces` | src/utils/utils.ts:45-46 | a position holds a space in the result iff it holds one in the input, so empty tokens pass through |
| `Capitalizer.CapitalizeTokenCount` | src/utils/utils.ts:45-46 | splitting the result on `' '` gives as many tokens as splitting the input |
| `Capitalizer.CapitalizeIdempotent` | src/utils/utils.ts:45-46 | `capitalize(capitalize(s)) == capitalize(s)` |
| `Capitalizer.CapitalizeAppend` | src/utils/utils.ts:45-46 | `capitalize(a + " " + b) == capitalize(a) + " " + capitalize(b)` |
| `Capitalizer.CapitalizeEmpty` | src/utils/utils.ts:45-46 | `capitalize("") == ""` |
| `Capitalizer.CapitalizeHello` | src/utils/utils.ts:58 | `capitalize("hello") == "Hello"` |
| `Capitalizer.CapitalizeHelloWorld` | src/utils/utils.ts:45-46 | `capitalize("hello world") == "Hello World"` |
| `Capitalizer.CapitalizeDoubleSpace` | src/utils/utils.ts:45-46 | `capitalize("a  b") == "A  B"`: the double space survives, both sides capitalized |
| `Numerals.RadixRoundTrip` | src/utils/utils.ts:11 | reading back the digits of `n.toString(base)` gives `n` |
| `Numerals.RadixNoLeadingZero` | src/utils/utils.ts:11 | a rendering starts with `0` only for the number 0 |
| `Numerals.IntToStringInjective` | src/utils/utils.ts:11 | different integers (negative ones included) have different renderings |
| `Ids.Slice` | src/utils/utils.ts:11 | `slice(start, end)` has length `min(end, len) - start` (0 when that is not positive) and copies the characters from `start` on |
| `Ids.RandomFragment` | src/utils/utils.ts:11 | the random fragment has at most eight characters |
| `Ids.UniqueId` | src/utils/utils.ts:10-11 | `prefix` defaults to `""`; the id starts with `prefix`, ends with the base-36 clock reading, and is at most 8 characters longer than the two |
| `Ids.UniqueIdDistinctClocks` | src/utils/utils.ts:10-11 | with the same prefix and random draw, ids made at different clock readings differ |
| `RateLimiters.Throttler.constructor` | src/utils/utils.ts:28-29 | a fresh wrapper has `lastCall == 0`, the given `limit` (300 by default) and no runs, and satisfies the invariant `Valid` (runs spaced at least `limit` apart) |
| `RateLimiters.Throttler.Invoke` | src/utils/utils.ts:30-36 | a call is accepted iff `now - lastCall >= limit`; then `lastCall` becomes `now` and the function runs once with the call's arguments; otherwise nothing changes; the invariant `Valid` is kept, so the object itself guarantees at most one run per `limit` window |
| `RateLimiters.ThrottleRunSpaced` | src/utils/utils.ts:29-35 | for any calls, consecutive runs are at least `limit` apart, the first at time `limit` or later, `lastCall` is the last run's time, and the new runs are a subsequence of the calls (in order, each call run at most once, with its own time and arguments) |
| `RateLimiters.ThrottleLastCallMonotone` | src/utils/utils.ts:31-33 | with a non-decreasing clock, `lastCall` only moves forward and never passes the latest call |
| `RateLimiters.ThrottleWindow` | src/utils/utils.ts:28-33 | with limit 300, after a call accepted at `t` the calls at `t+100` and `t+250` are dropped and one at `t+300` runs |
| `RateLimiters.ThrottlerScenario` | src/utils/utils.ts:28-36 | a `Throttler` with the default limit called at 1000, 1100 and 1250 runs its function once, with the first call's arguments |
| `RateLimiters.ThrottleEarlyFirstCallDropped` | src/utils/utils.ts:29-32 | a fresh wrapper drops a call made before time `limit`, because `lastCall` starts at 0 |
| `RateLimiters.Debouncer.constructor` | src/utils/utils.ts:2-3 | a fresh wrapper has no pending timer and no runs |
| `RateLimiters.Debouncer.Invoke` | src/utils/utils.ts:4-6 | a call replaces the pending timer with one due at `now + Delay(wait)` (`now + wait` for a non-negative `wait`) that carries the call's arguments; nothing runs |
| `RateLimiters.Debouncer.Tick` | src/utils/utils.ts:6 | a pending timer that is due fires: the function runs once with its arguments and the timer is gone; otherwise nothing changes |
| `RateLimiters.DebounceRunDelivers` | src/utils/utils.ts:3-6 | for any calls, the runs equal the reference defined from the gaps between calls (a call runs one delay later iff no call comes before then), and the one remaining timer is the last call's |
| `RateLimiters.BurstDeliversLast` | src/utils/utils.ts:3-6 | if every call comes before the previous one's timer is due, exactly one run happens: the last call's arguments, one delay after it |
| `RateLimiters.DebounceExample` | src/utils/utils.ts:3-6 | calls at 0, 50 and 120 with `wait = 100` give a single run at 220 with the third call's arguments |
| `RateLimiters.DebouncerScenario` | src/utils/utils.ts:2-7 | the same calls made on a `Debouncer` object, with the timer service ticking before each call and at 220, give that single run |

## Left out

- `matchString` (src/utils/utils.ts:42-43) is not modelled. It wraps the host regular-expression engine, including the exception on a malformed pattern, and there is nothing to prove without modelling that engine.
- `isDate` (src/utils/utils.ts:39-40) is not modelled. It rests on the runtime tag string and a floating-point NaN test. Dates in `Values` carry an integral instant, with no invalid state.
- Real time and real timers are not modelled. `Date.now()` is the `now` parameter; `setTimeout`/`clearTimeout` are the `pending` field and the `Tick` step. Running several calls assumes that a timer due by the time of a call fires before that call.
- `RateLimiters.Delay` models only the clamping of negative delays to 0. It does not model the host clamps: Node's minimum of 1 ms, and delays over 2^31-1 ms wrapping around.
- `Ids.UniqueId` does not model the random number or the clock reading. The rendered random number and the integral clock reading are parameters, so collision probability is not modelled.
- Floating point is not modelled. `Num` holds integers only, so NaN, `-0`, fractions and infinities do not appear.
- `Capitalizer.Upper` is ASCII only. It does not model Unicode case mapping, such as `ß` becoming `SS`, where the upper-case form has a different length. A Dafny `char` is a Unicode scalar value (a code point), whereas a JavaScript string is a sequence of UTF-16 code units.
- `Values.CloneString` counts one key per code point: a character outside the Basic Multilingual Plane, such as an emoji, is one `char` and gives one key, where `{..."😀"}` gives two keys, `"0"` and `"1"`, each holding a lone surrogate. `Ids.Slice` likewise counts code points where `slice` counts UTF-16 code units. `capitalize` is not affected, since the ASCII map leaves every non-ASCII character, surrogates included, unchanged.
- `Values.DeepClone` is defined on trees only, so cyclic inputs (which recurse forever in the source) are not modelled. Object identity is not modelled either: that a clone shares no mutable part with its input, and that `clone` shares nested objects, cannot be stated on values. `CloneIsShallow` shows the difference in values instead.
- Own non-enumerable properties, symbol keys, getters, array holes and extra properties on arrays and dates are not modelled. Neither is the special key `__proto__`, which `acc[key] = …` would treat as a prototype assignment.
- The order of `Object.keys` is not modelled. `ReduceKeys` visits the keys in an arbitrary order and is proved correct for every order.
- The `this` binding seen by the wrapped functions of `debounce` and `throttle` is not modelled.
- `objectToQueryString` (src/utils/utils.ts:60) appears only in a comment and is not defined in the file.

## Findings

| source | as written | input that shows it | evidently intended | confidence | as-written member | corrected member |
|---|---|---|---|---|---|---|
| src/utils/utils.ts:13-14 | `obj && …` hands back a falsy `obj` itself, so the function declared `: boolean` can return a non-boolean | `isEmptyObject(null)` returns `null`; `isEmptyObject(0)` returns `0` | `false` for every value that is not an empty plain object | high; not executed | `Values.IsEmptyObjectAsWritten`, with `Values.IsEmptyObjectReturnsFalsyInput` | `Values.IsEmptyObject`, with `Values.IsEmptyObjectAgreement` and `Values.IsEmptyObjectCases` |
