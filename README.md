# Vanity address generator — verified model of the search core

This project models the logic at the heart of a browser-based Ethereum vanity
address generator. It has three parts:

- **The address worker.** A web worker receives a pattern `{prefix, suffix,
  caseSensitive}` and checks that both strings are hexadecimal. It then draws
  random wallets until the address of one of them starts with `0x` + prefix and
  ends with suffix, compared exactly or after lower-casing. It posts that
  wallet's address, public key and private key, or an error.
- **The mouse-entropy collector.** A component turns pointer movements into a
  pool of 100 bytes. Samples closer than 50 ms to the previous one are dropped.
  Each kept sample contributes `(x XOR y) & 0xff`. Once the pool is full, it is
  handed to the parent component exactly once.
- **The difficulty helpers of the generator form.** These are the pattern
  length, the progress-bar value and colour, and the expected number of draws
  ("1 wallet over N").

Files:

- `hex.dfy`, module `Hex`: the `^[0-9a-fA-F]*$` test and ASCII lower-casing.
  The same test appears three times in the source.
- `address_worker.dfy`, module `AddressWorker`: the match predicates and the
  worker's validate-then-search handler.
- `mouse_entropy_collector.dfy`, module `MouseEntropyCollector`: the collector
  as a class with the component's state as fields.
- `address_generator.dfy`, module `AddressGenerator`: the pure difficulty
  helpers and the closed form of the probability estimate.

The wallet source (`ethers.Wallet.createRandom`) belongs to a foreign library.
In the model, `OnMessage` receives the draws as a finite sequence. Each draw is
a wallet or the message of an exception the draw raised. The real loop never
runs out of wallets. When the model's sequence runs out, the worker has posted
nothing yet (`NoMessage`). Time (`Date.now()`) and pointer positions are method
parameters. Positions are 32-bit values (`bv32`), the integers that the `^`
operator converts its operands to.

`src/addressWorker.js` is a near-duplicate of
`src/components/addressWorker.ts`, so the same members model both files. It
differs in three ways:

- The hex check sits at lines 7-10 instead of 8-11.
- The wallet library is loaded by `require('ethers')` at line 12, after the hex
  check, instead of by an `import` at the top of the file.
- The exception handler posts `error.message` instead of `(error as Error).message`.

The members map onto the JavaScript file as follows:

- `Hex.IsValidHex` models `src/addressWorker.js:5`.
- `AddressWorker.OnMessage` models `src/addressWorker.js:2-43`. The hex check is
  at lines 7-10, the loop at 19-33, the result at 35-39 and the error at 40-42.
- The prefix lemmas model `src/addressWorker.js:23-25`.
- The suffix lemmas model `src/addressWorker.js:27-29`.

## Model

| member | source | states |
|---|---|---|
| `Hex.IsValidHex` | src/components/addressWorker.ts:6 | The pattern test accepts a string exactly when every character is in `[0-9a-fA-F]`; the empty string passes. The same regex is at src/addressWorker.js:5 and src/components/AddressGenerator.tsx:31. |
| `AddressWorker.OnMessage` | src/components/addressWorker.ts:3-42 | If the prefix or suffix is not hex, it posts `Error("Invalid hex values")` and draws nothing. Otherwise it draws until the first wallet whose address satisfies every non-empty part of the pattern. It then posts that wallet's address, public key and private key, all from that one draw. Every earlier draw was a wallet that failed the pattern. A draw that throws posts `Error` with the exception's message and no result. If the supplied draws run out, nothing is posted and all of them failed. With both parts empty, the first wallet drawn is posted. |
| `AddressWorker.MatchesPrefix` | src/components/addressWorker.ts:22-24 | The prefix test is `startsWith("0x" + prefix)`, either exactly or after ASCII lower-casing of both sides. A match needs an address of at least 2 + \|prefix\| characters that starts with `0`; the lemmas below characterise it fully. Same test at src/addressWorker.js:23-25. |
| `AddressWorker.MatchesSuffix` | src/components/addressWorker.ts:26-28 | The suffix test is `endsWith(suffix)`, with the same choice of case handling. A match needs an address at least as long as the suffix, and the empty suffix always matches. Same test at src/addressWorker.js:27-29. |
| `AddressWorker.Satisfies` | src/components/addressWorker.ts:29-32 | The negation of the do-while guard: every non-empty part of the pattern matches. A pattern with both parts empty accepts every address. An accepted address is at least 2 + \|prefix\| characters long when the prefix is non-empty, and at least \|suffix\| characters long. Same guard at src/addressWorker.js:30-33. |
| `AddressWorker.SensitivePrefixByCharacters` | src/components/addressWorker.ts:22-23 | A case-sensitive prefix match holds iff the address has at least 2 + \|prefix\| characters, starts with `0x`, and equals the prefix character for character after that. |
| `AddressWorker.InsensitivePrefixByCharacters` | src/components/addressWorker.ts:24 | A case-insensitive prefix match holds iff the address is long enough, starts with `0x` or `0X`, and agrees with the prefix up to letter case after that. |
| `AddressWorker.SensitiveSuffixByCharacters` | src/components/addressWorker.ts:26-27 | A case-sensitive suffix match holds iff the last \|suffix\| characters of the address equal the suffix. |
| `AddressWorker.InsensitiveSuffixByCharacters` | src/components/addressWorker.ts:28 | A case-insensitive suffix match holds iff the last \|suffix\| characters of the address equal the suffix up to letter case. |
| `AddressWorker.SensitiveImpliesInsensitive` | src/components/addressWorker.ts:22-32 | An address that the loop accepts in case-sensitive mode is also accepted with case ignored. |
| `AddressWorker.InsensitiveSeesLowerCasePattern` | src/components/addressWorker.ts:22-28 | With case ignored, a pattern and its lower-cased form accept the same addresses. |
| `Hex.ToLowerIdempotent` | src/components/addressWorker.ts:24 | Lower-casing an already lower-cased string changes nothing. |
| `MouseEntropyCollector.EntropyByte` | src/components/MouseEntropyCollector.tsx:34 | The byte of a sample lies in [0, 255] and depends only on the low bytes of the two coordinates: it is their XOR. |
| `MouseEntropyCollector.Collector.constructor` | src/components/MouseEntropyCollector.tsx:9-13 | The collector starts with an empty pool, no positions, timestamp 0 and no notification, and the invariant holds. |
| `MouseEntropyCollector.Collector.HandleMouseMove` | src/components/MouseEntropyCollector.tsx:15-39 | A sample less than 50 ms after the last accepted one changes nothing. Otherwise the timestamp becomes `now`, even when the pool is full. If fewer than 100 bytes are held, `EntropyByte(x, y)` is appended to the pool and `(x, y)` to the positions; all earlier entries are kept. The invariant is preserved: at most 100 bytes, positions in lockstep with the bytes, each byte the masked XOR of its position. |
| `MouseEntropyCollector.Collector.NotifyEffect` | src/components/MouseEntropyCollector.tsx:42-47 | If the pool holds at least 100 bytes and the parent has not been notified, the flag is set and one call with the current pool is recorded. Otherwise nothing changes. The invariant is preserved. |
| `MouseEntropyCollector.ValidCollector` | src/components/MouseEntropyCollector.tsx:11-47 | In any state the invariant admits, the parent has been called at most once, and only with a full pool of 100 bytes equal to the current pool. Every pooled byte lies in [0, 255]. |
| `MouseEntropyCollector.FullPoolIsFrozen` | src/components/MouseEntropyCollector.tsx:22-24 | Once the pool is full, a mouse move leaves the pool and the positions as they are. A sample past the rate limit still moves the timestamp. |
| `AddressGenerator.Utf16Length` | src/components/AddressGenerator.tsx:41 | The JavaScript `length` of a string is its number of characters plus one for each character at or above U+10000. It equals the number of characters when all lie in the Basic Multilingual Plane. |
| `AddressGenerator.TotalChars` | src/components/AddressGenerator.tsx:41 | The pattern length is the JavaScript `length` of prefix and suffix joined, counted in UTF-16 code units, so a character outside the Basic Multilingual Plane counts twice. It is never below the number of characters, and for hex patterns it equals \|prefix\| + \|suffix\|. |
| `AddressGenerator.NonBmpCountsTwice` | src/components/AddressGenerator.tsx:41-45 | A one-emoji prefix with an empty suffix has length 2 and progress value 10. |
| `AddressGenerator.GetProgress` | src/components/AddressGenerator.tsx:42-51 | The progress value is one of 0, 5, 10, 20, 35, 55, 75, 90. It is 0 exactly for an empty pattern and 90 exactly beyond 8 characters. |
| `AddressGenerator.ProgressMonotone` | src/components/AddressGenerator.tsx:42-51 | The progress value never decreases as the pattern grows. |
| `AddressGenerator.GetProgressColor` | src/components/AddressGenerator.tsx:53-57 | The colour is `success` for at most 2 characters, `warning` for 3 to 5, and `error` from 6 on. |
| `AddressGenerator.ColorAgreesWithProgress` | src/components/AddressGenerator.tsx:42-57 | The colour is `success` exactly when the progress value is at most 10. `warning` goes with progress values 20 to 55, and `error` with values of at least 55. |
| `AddressGenerator.CharFactor` | src/components/AddressGenerator.tsx:66-76 | A pattern character multiplies the estimate by 1, 16 or 32. It multiplies by 1 exactly when the character is not a hex digit. |
| `AddressGenerator.Reduce` | src/components/AddressGenerator.tsx:66-77 | The left fold over the characters never falls below its starting accumulator. |
| `AddressGenerator.CalculateProbability` | src/components/AddressGenerator.tsx:59-80 | The estimate is at least 1. |
| `AddressGenerator.ReduceClosedForm` | src/components/AddressGenerator.tsx:66-77 | The fold equals the accumulator times 16^(digits) times (32 if case-sensitive else 16)^(hex letters). Other characters contribute nothing. |
| `AddressGenerator.ProbabilityClosedForm` | src/components/AddressGenerator.tsx:63-77 | `calculateProbability` equals 16^(digits) × (32 or 16)^(hex letters) over prefix ++ suffix. |
| `AddressGenerator.InsensitiveHexProbability` | src/components/AddressGenerator.tsx:66-72 | For a hex pattern with case ignored, the estimate is 16^(\|prefix\| + \|suffix\|). |
| `AddressGenerator.SensitiveHexProbability` | src/components/AddressGenerator.tsx:70-72 | For a hex pattern with case respected, the estimate is 16^(\|prefix\| + \|suffix\|) × 2^(hex letters). |
| `AddressGenerator.SensitiveAtLeastInsensitive` | src/components/AddressGenerator.tsx:72 | The case-sensitive estimate is never below the case-insensitive one. |

## Left out

- Key and address derivation (`ethers.Wallet.createRandom`: secp256k1 keys, Keccak-256 addresses, EIP-55 checksum casing) is foreign library code. The address is an opaque string, and the draws are a sequence the caller supplies.
- The real search loop is unbounded and may never stop. The model searches a finite sequence of draws, and `NoMessage` stands for "still searching".
- `Hex.LowerChar` lower-cases ASCII letters only. JavaScript's `toLowerCase` also maps non-ASCII letters. Patterns that pass the hex check and addresses produced by the library are ASCII, so the two agree on every string the worker compares.
- In `src/addressWorker.js`, `require('ethers')` at line 12 sits outside the `try`. A failure to load the library would escape the handler instead of posting an error. The model treats the library as present.
- The regex test coerces a non-string `prefix` or `suffix` to a string. The model takes strings only.
- Message passing between the page and its workers is not modelled: `new Worker`, `postMessage`, `onmessage`, `onerror`, `terminate` and the race between several workers (src/components/AddressGenerator.tsx:84-131, 271-275). This is concurrency outside this model. On any worker's error the page terminates every worker, and it has no guard against a second result arriving.
- `generateAddress`, the worker-count slider (`handleSliderChange`), rendering, `AddressDisplay`, the theme and `App` are presentation code.
- `MouseEntropyCollector.Collector.HandleMouseMove`: events run one at a time, each against the state the previous event committed. In React, the capacity check reads the pool captured at the last render. Two events between renders could both pass it. The 50 ms rate limit makes that unlikely, but the model does not capture it.
- `MouseEntropyCollector.Collector.NotifyEffect`: the React effect is a method the caller invokes after a render. The parent callback is recorded in the `delivered` field instead of being called.
- `getBoundingClientRect` and the float-to-int32 conversion of coordinates are outside the model. The coordinates arrive as 32-bit values.
- The progress bar's `(length / 100) * 100` percentage is presentation code.
- `AddressGenerator.CalculateProbability` returns a mathematical integer. In the source the value is a JavaScript number, and every value the fold produces is a power of two, 2^(4·digits + 5·letters) with case respected or 2^(4·digits + 4·letters) with case ignored. A double holds each of these exactly until the exponent reaches 1024. From there the source's value becomes `Infinity` and the page shows it as "∞", while the model returns the integer. For example, 256 hex characters with case ignored give 16^256 in the model. The text fields have no length limit, so such input can be entered. Formatting by `toLocaleString` is not modelled either.
