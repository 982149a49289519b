# Verified model of the Rust + Lua proxy

A Dafny model of the parts of the proxy that carry state or arithmetic, with proofs over every input,
run or interleaving. `dafny verify dfyconfig.toml` checks the whole project.

| files | what they model |
|---|---|
| `Utf8`, `Scalars`, `Base64`, `Base64Url` | the Base64 codec of the host, base64url in Lua, the Latin-1/UTF-8 text of a MAC, and which byte strings are text (RFC 4648 sections 4 and 5, RFC 3629 sections 3 and 4) |
| `Json`, `JsonScan`, `JsonPieces`, `JsonRoundTrip`, `Numerals`, `TableScan`, `ClaimsRoundTrip`, `JsonLimits`, `JsonLaws` | the JSON printer of the host, the pattern-scanning parser of `jwt.lua`, what a scan finds in any text, their round trip, tables that do not come back, and what printer and parser do outside the round trip |
| `Jwt`, `JwtLaws`, `JwtExact`, `JwtHeader` | `jwt.sign` and `jwt.verify` (RFC 7519 sections 4.1.4 and 4.1.5, RFC 7515 section 7.1): the round trip, the verdict on every token, the text of a signed token |
| `TokenBucket`, `RateLimiter` | one execution of the rate-limit chunk: the bucket on values, the table of buckets updated in place |
| `Balancer`, `Fairness`, `RoundRobinRun`, `HashRemap`, `RoundRobinConcurrent`, `Pool`, `DivMod` | the three balancers, their fairness and remapping, their interleavings, and the pool |
| `HotReload` | `PluginSources::load` and the watcher's select loop |
| `Context`, `Plugins`, `Hooks` | the request context, and the shipped hooks as transformers and as methods that write to it |
| `Engine`, `LuaEngine`, `Shipped`, `StaleHooks` | the hook pipeline on one persistent VM: for any plugins, as the engine object, and with the shipped plugins |
| `Admission`, `Policy`, `ProxyLaws` | who gets through the shipped pipeline, the same by path, key and token alone, and what the proxy sends and answers, header by header |

Conventions. A Rust byte string or a Lua string is a Dafny `string` with one character per byte.
Integers that wrap do so explicitly (the 64-bit ticket counter); `tonumber` distinguishes integers of 64
bits from floats. The MAC, the hash of a key, the clock readings, the request id, the pool's answers and
the upstream's answers are parameters; of the MAC only its 32 bytes are assumed. A Lua error is a result
of its own, and the writes made before it stay.

Where the code and its documentation or its integration script disagree, the model follows the code:

- `test.sh:57-59` expects 401 for a request without credentials. `plugins/auth.lua:49` indexes the absent
  header, the error is swallowed, and `authz.lua` answers 403 (`Admission.NoCredentialIsForbidden`).
- `test.sh:75-94` expects a 429 from request 102 on. One table of buckets would reject the 101st call of a
  burst (`TokenBucket.BurstExact`), but `src/lua/engine.rs:126` executes the chunk before every hook call and
  with it makes a new table, so no run of requests is ever answered 429 (`Admission.NoRunIsLimited`).
- The decoder stops at the first group with padding, so a signed token whose JSON has a length of 2 modulo
  3 loses its last claim or the last digit of it (`JwtLaws.SignVerifyExact`, `JwtLaws.TwelveComesBackAsOne`).
- The plugin API says `ctx:reject` answers at once. That holds in `on_request` only; a later rejection does
  not change the reply (`Engine.RejectionCutsOff`).
- The consistent hash is a plain modulo: one death moves all but k-1 of k(k-1) hash values
  (`HashRemap.RemapExact`).

## Model

| member | source | states |
|---|---|---|
| Base64.Encode | src/lua/engine.rs:251-270 | the chunk loop with the CHARS table prints the specified text: bytes regrouped by six bits, `=` for missing bytes |
| Base64.DecodeTable | src/lua/engine.rs:274-280 | the compile-time loop inverts CHARS: each of the 128 entries is the value of its character, -1 for a foreign one and for `=` |
| Base64.Decode | src/lua/engine.rs:272-296 | for every string, valid or not: the bytes before the first short or padded group if they are UTF-8, None on a foreign character before that |
| Base64.DecodeBytesOfEncode | src/lua/engine.rs:251-296 | for every byte string the decoder's buffer after encoding holds exactly its whole three-byte groups |
| Base64.DecodeAfterEncode | src/lua/engine.rs:251-296 | decode after encode is Some of those groups exactly when they are valid UTF-8 |
| Base64.EncodeAfterDecode | src/lua/engine.rs:251-296 | over the 64 characters at a length divisible by 4, only invalid UTF-8 fails, and encode gives the text back |
| Base64.EncodeShape | src/lua/engine.rs:255-268 | length 4 times the ceiling of n/3, alphabet characters first, `=` in exactly the last (3 - n mod 3) mod 3 places |
| Base64.EncodeInjective | src/lua/engine.rs:251-270 | different byte strings have different encodings |
| Base64.DecodeBytesExactly | src/lua/engine.rs:272-294 | for every text the decoder gives the bytes whose encoding is the text up to the first short or padded group, and fails exactly on a foreign character before that |
| Base64.KnownEncodings | src/lua/engine.rs:251-270 | vectors of section 10 of RFC 4648 for one, two and three bytes, and a group with both special characters |
| Utf8.FromLatin1IsValid | src/lua/engine.rs:309 | the string collected from MAC bytes is valid UTF-8, so it survives every string conversion |
| Utf8.FromLatin1Injective | src/lua/engine.rs:309 | different bytes give different strings |
| Scalars.ValidExactly | src/lua/engine.rs:295 | a byte string is valid if and only if it is the concatenation of the UTF-8 encodings, in the arithmetic of section 3 of RFC 3629, of scalar values (0..0xD7FF and 0xE000..0x10FFFF) |
| Scalars.DecodesTextExactly | src/lua/engine.rs:272-296 | the host's decode answers if and only if its buffer is such a concatenation, and then with the buffer |
| Scalars.TextSurvives | src/lua/engine.rs:251-296 | every text whose bytes fill whole groups comes back through encode and decode |
| Scalars.HangulSurvives | src/lua/engine.rs:272-296 | `7ZWc` decodes to the three bytes of U+D55C |
| Scalars.FromLatin1IsText | src/lua/engine.rs:309 | the string collected from MAC bytes is the UTF-8 of their codes |
| Base64Url.UrlEncodeShape | plugins/lib/jwt.lua:19-24 | the text uses only the URL alphabet and has the length of the encoding less its padding |
| Base64Url.RepadRestores | plugins/lib/jwt.lua:10-24 | translating back and re-padding restores the host's text, whatever was removed |
| Base64Url.UrlDecodeAfterEncode | plugins/lib/jwt.lua:10-24 | base64url loses exactly what Base64 loses; invalid UTF-8 gives the empty string |
| Base64Url.SignatureFaithful | plugins/lib/jwt.lua:49-54 | two MACs have the same signature text if and only if they are the same bytes |
| Base64Url.KnownUrlEncoding | plugins/lib/jwt.lua:19-24 | the two characters that differ from plain Base64 (section 5 of RFC 4648) |
| JsonScan.ParseJsonObj | plugins/lib/jwt.lua:28-43 | the three scanning loops build the specified table for every text: each next match is sought after the end of the last, later stores win, a numeral that is none removes its key |
| JsonPieces.ScanOfAnyText | plugins/lib/jwt.lua:31-41 | what each scan reports for any text at all, from its pieces between quotes: where a match begins, its key, its value, and where the search goes on |
| JsonRoundTrip.PrintText | src/lua/engine.rs:216-249 | a table of texts without quotes and 64-bit integers prints as its entries, in iteration order, between braces |
| TableScan.MatchesAtKeys | plugins/lib/jwt.lua:31-41 | in a printed table the matches of a scan are one per entry of its kind, each beginning at the opening quote of its key, if and only if no adjacent pair of entries looks like a colon and a value behind a closing quote |
| TableScan.ScanTable | plugins/lib/jwt.lua:31-41 | then each scan reports exactly the entries of its kind, in printing order |
| Numerals.ToNumberOfIntText | plugins/lib/jwt.lua:35-37 | `tonumber` of the printed text of any 64-bit integer is that integer |
| ClaimsRoundTrip.ParsePrint | plugins/lib/jwt.lua:28-43 | for such tables of valid UTF-8 texts parsing undoes printing, for every order of the entries, also without the final brace |
| ClaimsRoundTrip.ParseCut | plugins/lib/jwt.lua:28-43 | with two characters cut off all entries but the last come back; the last is lost, or is the integer without its last digit |
| JsonLimits.TextTakenForNumber | plugins/lib/jwt.lua:35-37 | `{"x":":5"}` comes back with a second entry |
| JsonLimits.TextTakenForFlag | plugins/lib/jwt.lua:39-41 | `{"x":":true\|false"}` comes back with a second entry |
| JsonLimits.KeyTakenForNumber | plugins/lib/jwt.lua:35-37 | `{"x":"y",":5":1}` comes back with another key and value |
| JsonLimits.KeyTakenForColon | plugins/lib/jwt.lua:31-33 | `{"a":1,":":"b"}` comes back with another key and value |
| JsonLimits.StrayMatchHarmless | plugins/lib/jwt.lua:35-37 | `{"x":":5",":":5}` comes back although the number scan strays from the keys |
| JsonLaws.EscapeExactly | src/lua/engine.rs:219 | the escaped text is the one with a backslash right before every quote that is the text again without those |
| JsonLaws.PrintAtoms | src/lua/engine.rs:218-225 | booleans, nil, the empty table, text that is not UTF-8, and any other text |
| JsonLaws.PrintInteger | src/lua/engine.rs:222 | an integer prints as its sign if negative and the digits of its size without a leading zero |
| JsonLaws.PrintArray | src/lua/engine.rs:226-235 | a table with an array part prints as its items between brackets, each next one behind a comma, whatever pairs it holds |
| JsonLaws.PrintMap | src/lua/engine.rs:236-245 | without one as its pairs between braces, key, colon and value, in the order of iteration |
| JsonLaws.NumeralValue | plugins/lib/jwt.lua:36 | `tonumber` of sign, digits, dot and digits is the integer if there is no dot and it fits 64 bits, else the decimal value |
| JsonLaws.NumberIffNumeral | plugins/lib/jwt.lua:36 | and nil for every text that is no such numeral |
| JsonLaws.NumberComesBack | plugins/lib/jwt.lua:35-37 | `{"k":v}` for any row of digits, dots and minus signs `v` parses to that number, or to nothing if it is none |
| JsonLaws.ParsedAt | plugins/lib/jwt.lua:28-43 | for any text and key: the last match of the flag scan decides, else of the number scan, else of the string scan; a flag is always stored as false, a numeral that is none removes the key |
| Jwt.HeaderSurvives | plugins/lib/jwt.lua:123 | the signer's header has whole groups only, decodes to itself and parses to HS256 |
| JwtLaws.VerifyOfSign | plugins/lib/jwt.lua:65-128 | for every secret a signed token, bare or behind `Bearer `, passes the format, algorithm and signature checks, and the time checks then see exactly the recovered claims |
| JwtLaws.PayloadRecovers | plugins/lib/jwt.lua:96-97 | the recovered claims are all of them unless the JSON length is 2 modulo 3 |
| JwtLaws.PrefixValid | src/lua/engine.rs:284-295 | the whole groups of a printed table are valid UTF-8 whatever its texts: the cut never splits a character |
| JwtLaws.CheckTimesExact | plugins/lib/jwt.lua:99-115 | for all claims: accepted if and only if exp and nbf, where true, are numbers that allow the moment; an error if and only if the first in the way is no number |
| JwtLaws.SignVerifyExact | plugins/lib/jwt.lua:65-128 | verify of sign returns the same claims if and only if the moment is allowed and the JSON length is not 2 modulo 3 (or there are no claims) |
| JwtLaws.TwelveComesBackAsOne | plugins/lib/jwt.lua:65-128 | `{"a":12}` signs to a token that verifies at any time and comes back as `{"a":1}` |
| JwtLaws.SignVerifyKeepsEarlier | plugins/lib/jwt.lua:65-128 | whatever the length, an accepted token keeps every claim printed before the last |
| JwtLaws.SignatureDecides | plugins/lib/jwt.lua:84-93 | for any token with an HS256 header the signature check passes if and only if the presented bytes are this MAC |
| JwtExact.CarriesExactly | plugins/lib/jwt.lua:66-74 | the trim and the split find three parts if and only if the text after an optional `[Bb]earer` and a space is those dot-free parts, joined by dots, between spaces |
| JwtExact.AcceptedExactly | plugins/lib/jwt.lua:65-116 | for every token and all claims c: accepted with c if and only if the token carries three parts whose header names HS256, whose third part is this MAC, whose payload parses to c, and c allows the moment |
| JwtExact.RefusedExactly | plugins/lib/jwt.lua:71-93 | for every token: the format error if and only if no three parts, `unsupported algorithm` if and only if the header does not name HS256, whatever the signature, and the signature error if and only if only the MAC is wrong |
| JwtExact.OutOfTimeExactly | plugins/lib/jwt.lua:99-115 | for every token: an error or `expired` if and only if it is genuine and its time claims say so |
| JwtHeader.SignExactly | plugins/lib/jwt.lua:122-128 | a signed token is `eyJhbGciOiJIUzI1NiIsInR5cCI6IkpXVCJ9`, the JSON in base64url and the MAC over both, joined by dots |
| TokenBucket.LastIsClock | plugins/rate_limit.lua:27-33 | `last` is the running maximum of the clock readings, creation included, also when the clock steps back |
| TokenBucket.TokensAreLeastRoom | plugins/rate_limit.lua:27-52 | after the refill at call n the tokens are the minimum over all windows ending there of capacity + rate * clock advance - admitted |
| TokenBucket.RejectedIffOverfull | plugins/rate_limit.lua:43-52 | a call is rejected if and only if admitting it would break the bound of some window ending at it |
| TokenBucket.BurstExact | plugins/rate_limit.lua:35-57 | of a burst within one second one bucket admits exactly the first CAPACITY calls |
| TokenBucket.ChoiceObeys | plugins/rate_limit.lua:27-52 | the plugin's decisions keep every window bound |
| TokenBucket.ChoiceIsGreatest | plugins/rate_limit.lua:27-52 | no choice that keeps every window bound has admitted more at any prefix |
| TokenBucket.TokensConserved | plugins/rate_limit.lua:17-56 | admitted + tokens + refill lost to the cap = capacity + rate * (last - creation), and 0 <= tokens <= capacity |
| TokenBucket.RetryAfterExact | plugins/rate_limit.lua:43-46 | the advice is always one second, and a retry is admitted if and only if the clock has passed its running maximum |
| RateLimiter.Limiter.GetBucket | plugins/rate_limit.lua:17-25 | a full bucket is created only for a new key, nothing else in the table changes, and no two keys share a bucket |
| RateLimiter.Limiter.RefillCell | plugins/rate_limit.lua:27-33 | the in-place refill has the specified effect on its bucket and touches no other |
| RateLimiter.Limiter.OnRequest | plugins/rate_limit.lua:35-57 | decision, reported header and the whole new table are those of the specification |
| RateLimiter.KeysIndependent | plugins/rate_limit.lua:10-56 | in any interleaving each key's decisions and bucket are those of the run projected to that key |
| RateLimiter.LimiterOptimal | plugins/rate_limit.lua:10-57 | over any run of one chunk instance every key's decisions are bounded, unbeaten and conserve tokens |
| Balancer.Balancer.Next | src/upstream/balancer.rs:45-104 | the URL of the selected target under each strategy, and the ticket counter after the call: only round robin with an alive target advances it, modulo 2^64 |
| Balancer.Least | src/upstream/balancer.rs:68-73 | the first of the alive targets with the fewest connections, none if and only if none is alive |
| Balancer.SelectionIsAlive | src/upstream/balancer.rs:45-104 | every strategy returns an alive target, and none exactly when none is alive |
| Balancer.LeastIsFirstAlive | src/upstream/balancer.rs:67-73 | with counts that nothing updates, least_conn is the first alive target |
| Fairness.FairWithoutWrap | src/upstream/balancer.rs:47-50 | without a wrap of the counter each of k positions gets the floor or the ceiling of n/k of any n tickets |
| Fairness.FairAcrossWrap | src/upstream/balancer.rs:47-50 | across one wrap two positions differ by at most 2, by at most 1 without one |
| Fairness.AlwaysFairIff | src/upstream/balancer.rs:47-50 | the bound of 1 holds for all windows, over any number of wraps, if and only if k divides the counter's modulus |
| RoundRobinRun.PickIsTicket | src/upstream/balancer.rs:46-51 | call i of a run picks the alive target of ticket (c + i) mod 2^64 |
| RoundRobinRun.RoundRobinFair | src/upstream/balancer.rs:46-51 | the picks of any run of calls with fixed flags meet the three fairness bounds |
| RoundRobinRun.RoundRobinFairIff | src/upstream/balancer.rs:46-51 | no window ever favours a target by more than one pick if and only if the number of alive targets divides 2^64 |
| HashRemap.KeepsIsSameTarget | src/upstream/balancer.rs:96-102 | after a death a hash keeps its target if and only if its remainders by k and k-1 name the same target |
| HashRemap.RemapExact | src/upstream/balancer.rs:96-102 | when any one of k >= 2 alive targets dies, exactly k-1 of every k(k-1) consecutive hash values keep their target |
| RoundRobinConcurrent.ReturnsWhatItRead | src/upstream/balancer.rs:46-51 | in every interleaving of flag reads, tickets, returns and liveness stores, a returned target was read alive by its own call, and None means every target was read dead by it |
| RoundRobinConcurrent.SameAsSequential | src/upstream/balancer.rs:46-51 | with fixed flags the returned multiset and the counter are those of the sequential run in ticket order |
| RoundRobinConcurrent.FairInEveryInterleaving | src/upstream/balancer.rs:46-51 | so the fairness bounds hold of the returned targets in every interleaving |
| Pool.LastNamedIsLast | src/upstream/pool.rs:24-31 | the entry that serves a name is the last one of that name |
| Pool.UpstreamPool.Init | src/upstream/pool.rs:22-34 | after any config list the pool is the configured one: one balancer per name, of the last such entry, all targets alive, all objects new and none shared |
| Pool.UpstreamPool.NextUrl | src/upstream/pool.rs:37-41 | exactly the URL the found entry picks, and exactly its counter moves |
| Pool.UpstreamPool.StoreLiveness | src/upstream/pool.rs:50-59 | exactly one flag of one entry changes |
| Pool.EveryAnswer | src/upstream/pool.rs:22-59 | over any list of picks and liveness stores after `init`, every answer is that of the last entry of the name (or of `default`), chosen by its configured `lb` name among the flags last stored: the first alive target, the key's hash, or for any other name the ticket that counts its earlier answers |
| Pool.SameKeySameTarget | src/upstream/balancer.rs:95-113 | under `consistent_hash` two picks of one entry with the same key and flags answer alike, whatever came between |
| Pool.AnswersRotate | src/upstream/balancer.rs:45-113 | under any name but the two, answer number m is alive target m mod k, whatever the keys |
| Pool.AnswersAreAlive | src/upstream/pool.rs:37-41 | so it is a target of that entry whose last stored flag is alive, the first such under least_conn, and None if and only if there is none |
| Pool.Lifetime | src/upstream/pool.rs:22-59 | the objects give exactly these answers over any such list |
| HotReload.LoadSources | src/lua/engine.rs:19-37 | the reading loop returns the specified table, unreadable files skipped |
| HotReload.LoadIntoIs | src/lua/engine.rs:20-32 | a load holds exactly the readable files of the pipeline |
| HotReload.Watcher.Receive | src/watcher.rs:41-54 | an event sets `pending` exactly if it creates, modifies or removes a path that ends in `.lua` behind a character other than a slash |
| HotReload.LuaExactly | src/watcher.rs:46-50 | the extension test holds of exactly the paths that end in `.lua` behind a character other than a slash |
| HotReload.EventSetsPending | src/watcher.rs:41-54 | so for the loop on values, with everything but the flag unchanged |
| HotReload.Watcher.Tick | src/watcher.rs:55-57 | a tick starts a load exactly if one is pending, and clears the flag first |
| HotReload.Watcher.ReadNext | src/lua/engine.rs:21-31 | one file of the load in progress is read as it is at that moment |
| HotReload.Watcher.Finish | src/watcher.rs:58-61 | the finished load replaces the stored sources as a whole |
| HotReload.ConsistentStep | src/watcher.rs:36-68 | every step keeps the invariant: what is stored or read so far agrees with the files or a reload is due |
| HotReload.Converges | src/watcher.rs:36-68 | under every interleaving, when nothing is outstanding the stored sources are a load of the current files; loads never exceed the `.lua` events received |
| HotReload.ConvergesIff | src/watcher.rs:43-52 | all runs converge if and only if every pipeline name ends in `.lua` behind a character other than a slash |
| Context.LowerExactly | src/lua/context.rs:129-141 | header names are lowered character by character: the 26 capitals move, everything else stays |
| Hooks.RateLimitHook | plugins/rate_limit.lua:35-57 | on the chunk's own table, the hook leaves the context and the table of its transformer |
| Hooks.IsPublicPath | plugins/auth.lua:23-30 | the search finds a public pattern if and only if one matches |
| Hooks.ApiKeyAttempt | plugins/auth.lua:47-71 | which attempts succeed, fail and raise, and the context each leaves |
| Hooks.JwtAttempt | plugins/auth.lua:74-94 | the same for tokens, with the reason of a failure |
| Hooks.AuthHook | plugins/auth.lua:97-115 | the context left by the three ways of authentication, by a 401, or by an error with the writes made before it |
| Hooks.FirstRule | plugins/authz.lua:31-38 | the first rule whose pattern matches, nil if and only if none does |
| Hooks.RoleIsAllowed | plugins/authz.lua:23-29 | true if and only if there is no list or the role is one of its entries |
| Hooks.AuthzHook | plugins/authz.lua:40-66 | a 403 exactly as the rules say, public requests untouched |
| Hooks.TransformHook | plugins/transform.lua:9-28 | identity headers, blanked credentials and the request id |
| Hooks.RouteHook | plugins/transform.lua:31-43 | the upstream by path prefix, returned and stored |
| Hooks.ResponseHook | plugins/transform.lua:46-68 | the header map after all writes is the old map overridden by the written one |
| Engine.RunRequestComposes | src/lua/engine.rs:121-144 | running p + q is running p and then, unless it rejected, q, for any plugins: missing sources, failing loads and raising hooks included |
| Engine.RunEachComposes | src/lua/engine.rs:172-211 | the transform and response loops never stop early |
| Engine.RouteStopsAtFirst | src/lua/engine.rs:147-169 | for any plugins the routing loop ends right after the first slot that returns an upstream, and without one gives the stored variable |
| Engine.RejectionCutsOff | src/handler.rs:55-122 | in every run the phases come in order, no on_request hook sees a rejected context, the reply is a rejection if and only if on_request left one, and then nothing is routed, transformed or forwarded |
| LuaEngine.Vm.LoadPlugin | src/lua/engine.rs:113-117 | executing a chunk overwrites the hook globals it gets to define and keeps the others, a rate-limit hook comes with a new table, and a chunk that fails says so |
| LuaEngine.Vm.Slot | src/lua/engine.rs:124-140 | one turn of a loop: no source and a failing load are skipped, and the hook is called if the globals have it, whoever left it there |
| LuaEngine.Vm.RunOnRequest | src/lua/engine.rs:121-144 | the loop leaves exactly the VM, context and call log of the specification |
| LuaEngine.Vm.RunOnRoute | src/lua/engine.rs:147-169 | the same, and the first upstream returned or else the stored variable |
| LuaEngine.Vm.RunOnEach | src/lua/engine.rs:172-211 | the same for the transform and response loops |
| LuaEngine.Vm.HandleRequest | src/handler.rs:50-142 | the handler on a new context gives the specified reply and leaves the specified VM, context and log |
| Shipped.SlotCalls | src/lua/engine.rs:124-140 | an on_request hook always runs on a chunk just executed, whatever table earlier runs left; a later hook is that of transform.lua |
| Shipped.RequestIsChain | src/lua/engine.rs:121-144 | over shared or own globals, run_on_request is the chain of the slots' own hooks up to the first rejection |
| Shipped.RouteIsPlain | src/lua/engine.rs:147-169 | whichever slot calls it first, the route is that of transform.lua, exactly if some slot reaches that hook |
| Shipped.ResponseIdempotent | plugins/transform.lua:46-68 | running on_response again changes nothing |
| Shipped.ResponseIsPlain | src/lua/engine.rs:193-211 | however many slots call on_response, the effect is that of one call |
| Shipped.HandleExactly | src/handler.rs:55-122 | every request from every VM state ends as the plain form, with the later hooks of transform.lua on exactly if reached |
| Shipped.SharedRefinesOwn | src/lua/engine.rs:113-211 | from every VM state earlier requests leave, reply, upstream, rejection and context equal those of an engine whose slots call only their own hooks |
| Shipped.NoStaleHookKept | src/lua/engine.rs:113-211 | those states are closed under requests |
| Shipped.ServeIsPlain | src/lua/engine.rs:40-45 | all replies one VM gives over any sequence of requests are those of the plain form |
| StaleHooks.RefinesIffNoStaleHook | src/lua/engine.rs:113-211 | from any VM state the refinement holds of all requests if and only if no hook of a plugin outside the pipeline is left in the globals (as after a reload) |
| Admission.ParsedScalars | plugins/lib/jwt.lua:28-43 | the parser stores only text, numbers and false: `(true\|false)` is literal text in a Lua pattern |
| Admission.RateLimitAdmits | plugins/rate_limit.lua:10-57 | on a chunk just executed the limiter passes every request and only states 99 remaining of 100 |
| Admission.LimiterByCaller | plugins/rate_limit.lua:35-57 | on a table that is kept only the bucket of the user, or else of the address, changes: ten tokens a second up to a hundred, one given up and the rest stated while there is one, else 429 with `retry-after: 1` |
| Admission.NoRunIsLimited | src/lua/engine.rs:113-144 | whatever the pipeline makes of the shipped plugins and whatever table earlier requests left, no reply of any run of requests has status 429 |
| Admission.KeyOutcome | plugins/auth.lua:47-71 | from any context: success exactly for a listed key, setting three variables; an error exactly when both headers are absent |
| Admission.TokenOutcome | plugins/auth.lua:74-94 | from any context: success exactly for a bearer token that verifies, an error exactly when its verification raises |
| Admission.AuthOutcome | plugins/auth.lua:97-115 | from any context: what the hook leaves for a public path, a credential, an error and a failure, and nothing else |
| Admission.OpenRulesArePublic | plugins/authz.lua:19-20 | a rule without roles covers only paths that auth.lua holds public |
| Admission.AuthzOutcome | plugins/authz.lua:40-66 | a non-public request passes if and only if it has a role that the first matching rule permits |
| Admission.TransformOutcome | plugins/transform.lua:9-28 | from any context: the headers and variables left, with the identity stated over what the client sent |
| Admission.AdmittedExactly | src/lua/engine.rs:121-144 | over the shipped pipeline a request is left unrejected if and only if its path is public or its credential has a permitted role; else the rejection is a 401 or a 403, each exactly when stated and with its cause; an admitted request's headers are given exactly |
| Admission.NoCredentialIsForbidden | plugins/auth.lua:47-49 | without either header a non-public request is answered 403 |
| Admission.ProxyAdmitsExactly | src/handler.rs:55-71 | the same condition and the same rejection of the engine's replies, from every VM state |
| Engine.ForwardedHeaders | src/handler.rs:95-104 | what is sent upstream are the context's headers after the transform phase, with the two the handler adds |
| Admission.ForwardedExactly | src/handler.rs:95-104 | the headers of everything the proxy forwards: the client's, with `authorization` and `x-api-key` blank, the request id, off the public paths the name and role of the credential (an API key's name holds its first eight characters), and the handler's two |
| Admission.SignedTokenAdmitted | plugins/auth.lua:84-91 | a token made by `jwt.sign` with the proxy's secret, sent without a listed API key, is admitted to a path if and only if its recovered claims allow the moment and the rules permit its role |
| Policy.PublicExactly | plugins/auth.lua:17-30 | the paths that need no credential: `/health`, `/metrics`, and what is under `/public/` |
| Policy.PermitsExactly | plugins/authz.lua:8-38 | for each prefix the roles that may use it, every role elsewhere |
| Policy.ApiKeyExactly | plugins/auth.lua:47-58 | the key after `ApiKey` is what follows its spaces |
| Policy.KeyRoleExactly | plugins/auth.lua:11-14 | the role is admin or reader if and only if the presented key is the one listed so; the user is the key's first eight characters |
| Policy.TokenExactly | plugins/auth.lua:74-86 | a token's claims are taken if and only if a bearer token of this secret, in time, carries them |
| Policy.IdentityExactly | plugins/auth.lua:47-115 | user and role of a request: of a listed key, else the `sub` and `role` claims of such a token as text, `unknown` and `user` when absent or false |
| Policy.AdmissionByPath | src/handler.rs:55-71 | the proxy's replies by path and role alone: `/admin/` and `/reload` need admin, below `/metrics` admin or ops, `/api/v1/` admin, user or reader, `/api/v2/` admin or user, the open paths nothing, any other path some role |
| Policy.KeyAdmission | src/handler.rs:55-71 | the admin key is let through everywhere; the reader key everywhere but `/admin/`, `/reload`, below `/metrics` and `/api/v2/` |
| Policy.RefusalByPath | src/handler.rs:55-71 | every other request is answered 403 with its cause if it has a role or auth.lua raises, else 401 with the cause of the failed credential |
| ProxyLaws.TrimSlashesExactly | src/handler.rs:93 | the target without its slashes at the end |
| ProxyLaws.RelayedExactly | src/handler.rs:39-142 | every request let through, from every VM state: the upstream of its path asked under the client's address, URL and each header sent, 503 and 502, and status, body and each header answered |

## Left out

- Sockets, TLS, runtimes, signals, metrics, configuration parsing and the admin endpoints, except its reload as one atomic step.
- HMAC-SHA256 and the key hash: parameters; no cryptographic property is assumed or stated. The branch for a missing `hmac` global (`plugins/lib/jwt.lua:55-56`) is not modelled, as the host always sets it.
- ClaimsRoundTrip.ParsePrint: covers flat tables of distinct, non-empty keys whose entries are passed quietly by all three scans (`TableScan.Calm`). That condition is exact for where the matches begin; for the resulting table it is sufficient, because a stray match can store by coincidence what is there already (`JsonLimits.StrayMatchHarmless`). `JsonLimits` shows for each of its clauses a table that does not come back. Nothing is claimed of texts with quotes, booleans, nested tables and floats.
- JsonScan.ParseJsonObj: keeps decimal numerals and integers beyond 64 bits as exact reals, because Lua's rounding to a double is not the point of any property here.
- Printing of floats (`src/lua/engine.rs:223`): the printer's specification excludes them, and the text Lua gives a float claim is a parameter. Parsed floats keep their exact decimal value, without rounding.
- The shifts, masks and the or of the Base64 words are written as division, remainder and a sum of disjoint digits on unbounded integers below 2^24.
- Rate limiting across requests: each hook run executes the chunk anew, so the window and conservation theorems of `TokenBucket` and `RateLimiter` are about one chunk instance. `retry-after` and the `x-ratelimit` headers set in on_request are not claimed to reach the client.
- Full Lua semantics: a plugin is what its chunk defines and what its hooks do to the context; only the patterns of `jwt.lua`, `auth.lua` and `authz.lua` are modelled.
- `ip_filter.lua` is the identity, as both its lists are empty.
- Hooks and chunks are total functions: one that does not terminate is not modelled.
- The request body, its lossy UTF-8 conversion, `ctx.res`, `set_res_status` and the request method play no part in the shipped hooks and are not in the context; the forwarded request and the response are opaque values.
- Header names arrive in lower case (`src/handler.rs:37`) and `to_lowercase` is modelled on ASCII. Rejection messages are modelled by their causes.
- `uuid.v4` and the clock are readings, one set for each on_request call; both sides of the refinement see the same.
- Relaxed atomics: `RoundRobinConcurrent` interleaves whole reads, stores and `fetch_add`s, and does not model reordering of the flag loads. `usize` is 64 bits wide.
- The pool's picks and stores are atomic there; their finer interleaving is the subject of `RoundRobinConcurrent`. The outcome of a health probe is a parameter.
- LeastConn under load: `active` is never incremented, so no balancing claim is made. No minimal-disruption claim is made for the consistent hash.
- `HotReload`: event paths with a final slash or `.` component (which `Path::extension` looks past), the gap between the first load (`src/main.rs:53-55`) and the registration of the watch (`src/watcher.rs:29`), lost events, and an admin reload whose read and write straddle a store of the watcher are excluded. Requests in flight during a reload are not modelled.
- A chunk that fails after it has defined on_route, on_transform or on_response: module `Engine` and the engine object cover it, the refinement of module `Shipped` excludes it (`Shipped.Tame`).
- VM errors other than those of a chunk or a hook, and the `unsafe` sharing of the engine within its thread (`src/handler.rs:57`).
