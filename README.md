# Check-in dashboard: the builder list, the network gate and the address format

This project models the state logic of the `Home` page of the batch check-in
dashboard (`packages/nextjs/app/page.tsx`). The page reads a
`checkedInCounter` value and the `CheckedIn` event history of the
`BatchRegistry` contract through external hooks. It keeps two pieces of state:

- `checkedInBuilders`, the list of builder addresses seen in the event history;
- `isConnectedOptimism`, the network gate.

Two effects update that state:

- the merge effect appends every defined builder of a new event batch that is
  not yet listed, but only when the events are not loading, a batch is present
  and the gate is open;
- the gate effect opens the gate when the chain id is 10 (Optimism). Nothing
  ever closes it again.

Two pure helpers format what is shown: the counter cell, and the narrow-screen
abbreviation of an address.

Modules:

- `Wrappers`: `Option`, standing for JavaScript's `undefined`.
- `JsRuntime`: the parts of the JavaScript runtime the page depends on.
  `String.prototype.substring` clamps its indices and swaps them, as the
  ECMAScript language specification defines it. `BigInt.prototype.toString()` gives a decimal
  form, and a parser is there to read it back.
- `BuilderList`: the merge as pure functions and the lemmas about them.
  `AsSet` stands for `new Set(checkedInBuilders)` (page.tsx:54).
  `NewBuilders` is the `map`/`filter` pipeline, `Merged` the append, and
  `EffectResult` the whole effect with its guard.
- `HomePage`: the counter cell, `FormatAddress`, the page `State`, the
  effect runs `Step` and `Run` with lemmas over whole sequences of updates,
  and the class `Home`. The class's fields are updated in place by
  `OnEventHistory` and `OnChain`. Each of them is proved to match `Step`.

The comment at page.tsx:51 says the `Set` keeps the list free of duplicates
on re-render. That holds for re-runs: running the effect again with the same
batch changes nothing (`EffectIdempotent`). It does not hold within one
batch. The filter at page.tsx:57 only checks the list as it was before the
batch, so a batch that names a new builder twice appends that builder twice
(`RepeatedNewBuilderAppendedTwice`). `MergedDistinct` states exactly when the
list stays duplicate-free.

## Model

| member | source | states |
|---|---|---|
| JsRuntime.Substring | packages/nextjs/app/page.tsx:47 | `substring` never yields more than the string. With in-range indices `start <= end` it is exactly the slice between them. |
| JsRuntime.SubstringRules | packages/nextjs/app/page.tsx:47 | `substring` swaps reversed arguments, treats a negative start as 0, and treats an end past the string as its length. |
| JsRuntime.SubstringFrom | packages/nextjs/app/page.tsx:47 | one-argument `substring`: the suffix from an in-range start, the whole string from a negative start, and "" past the end. |
| JsRuntime.NatToDecimal | packages/nextjs/app/page.tsx:36 | the decimal numeral is non-empty, made only of digits, and has no leading zero. |
| JsRuntime.BigIntToString | packages/nextjs/app/page.tsx:36 | the string form is non-empty and starts with '-' exactly for negative values. |
| JsRuntime.DecimalRoundTrip | packages/nextjs/app/page.tsx:36 | parsing the decimal numeral of n gives back n. |
| JsRuntime.BigIntRoundTrip | packages/nextjs/app/page.tsx:36 | parsing the string form of a bigint gives back that bigint. |
| JsRuntime.BigIntToStringInjective | packages/nextjs/app/page.tsx:36 | distinct counters are shown as distinct strings. |
| HomePage.CheckedInCounterElement | packages/nextjs/app/page.tsx:34-40 | loading dots exactly while the counter read is loading, never a number then. Afterwards: text exactly when a counter is present. That text is the canonical decimal form of the counter (digits only, no leading zero, '-' exactly for negatives, as `BigIntToString` guarantees), and it parses back to the counter. |
| HomePage.FormatAddress | packages/nextjs/app/page.tsx:43-48 | "" gives "Resolving...". Any other address of length n gives its first min(5,n) characters, "...", then its last min(4,n) characters. |
| HomePage.FormatAddressExample | packages/nextjs/app/page.tsx:43-48 | "0x1234567890abcdef" gives "0x123...cdef", and "" gives "Resolving...". |
| HomePage.FormatAddressShort | packages/nextjs/app/page.tsx:47 | an address of 1 to 4 characters appears whole on both sides of the ellipsis (the clamping in `substring`). |
| HomePage.FormatAddressNotPlaceholder | packages/nextjs/app/page.tsx:43-48 | a non-empty address never abbreviates to the "Resolving..." placeholder. |
| BuilderList.NewBuilders | packages/nextjs/app/page.tsx:55-57 | the filter keeps at most one builder per record, and never a builder that is already known. |
| BuilderList.NewBuildersMember | packages/nextjs/app/page.tsx:55-57 | a builder is kept if and only if some record defines it and it is not already known. |
| BuilderList.NewBuildersAppend | packages/nextjs/app/page.tsx:55-57 | filtering a concatenation of batches is the concatenation of the filtered batches, so batch order is kept. |
| BuilderList.NewBuildersSingle | packages/nextjs/app/page.tsx:56-57 | one record gives its builder when it is defined and unknown, and nothing otherwise. An undefined builder is dropped. |
| BuilderList.NewBuildersOrder | packages/nextjs/app/page.tsx:55-59 | if new builder x's record comes before new builder y's, then x is appended before y. |
| BuilderList.NoNewBuilders | packages/nextjs/app/page.tsx:55-58 | the filter keeps nothing if and only if every defined builder of the batch is already known. |
| BuilderList.NewBuildersDistinct | packages/nextjs/app/page.tsx:54-57 | a batch whose defined builders are pairwise distinct yields pairwise distinct new builders. |
| BuilderList.EffectResult | packages/nextjs/app/page.tsx:52-62 | the old list is always a prefix of the result. Nothing changes unless events are not loading, a batch is present and the gate is open. When the effect runs, the appended part holds exactly the batch's defined builders that were not listed. |
| BuilderList.MergedAppends | packages/nextjs/app/page.tsx:58-59 | a merge is the old list followed by the filtered builders. When the filter keeps nothing, the list is unchanged. |
| BuilderList.MergedFixedPoint | packages/nextjs/app/page.tsx:54-59 | a merge leaves the list unchanged if and only if every defined builder of the batch is already listed. |
| BuilderList.MergedCovers | packages/nextjs/app/page.tsx:54-59 | after a merge, every defined builder of the batch is listed. |
| BuilderList.MergedIdempotent | packages/nextjs/app/page.tsx:54-59 | merging the same batch a second time changes nothing. |
| BuilderList.EffectIdempotent | packages/nextjs/app/page.tsx:52-62 | re-running the effect on its own result with the same inputs changes nothing. This is the re-run the effect's dependency on `checkedInBuilders` triggers. |
| BuilderList.MergedDistinct | packages/nextjs/app/page.tsx:54-59 | a duplicate-free list stays duplicate-free if and only if the batch's new builders are pairwise distinct. |
| BuilderList.MergedKeepsDistinct | packages/nextjs/app/page.tsx:54-59 | a duplicate-free list and a batch without repeated builders give a duplicate-free list. |
| BuilderList.RepeatedNewBuilderAppendedTwice | packages/nextjs/app/page.tsx:54-59 | a batch that names a new builder twice appends it twice, leaving a duplicate in the list. |
| BuilderList.UndefinedBuilderDropped | packages/nextjs/app/page.tsx:53-59 | the batch [undefined, "0xABC"] merged into an empty list with the gate open gives ["0xABC"]. |
| HomePage.RunGate | packages/nextjs/app/page.tsx:65-69 | after any sequence of updates, the gate is open if and only if it was open before or some update carried chain id 10. |
| HomePage.RunGateStaysOpen | packages/nextjs/app/page.tsx:65-69 | once open, the gate stays open whatever chain ids follow. |
| HomePage.RunPrefix | packages/nextjs/app/page.tsx:52-69 | over any sequence of updates, the list only grows: the old list stays a prefix. |
| HomePage.RunClosedGate | packages/nextjs/app/page.tsx:52-69 | while the gate is closed and no update carries chain id 10, the state does not change, whatever batches arrive. |
| HomePage.RunKeepsDistinct | packages/nextjs/app/page.tsx:52-62 | a duplicate-free list stays duplicate-free over any run whose batches repeat no builder. |
| HomePage.WrongNetworkScenario | packages/nextjs/app/page.tsx:52-69 | on chain id 1, a loaded batch leaves the page in its initial state: gate closed, list empty. |
| HomePage.OptimismScenario | packages/nextjs/app/page.tsx:52-69 | on chain 10: a loading batch is ignored, a loaded batch is merged with its undefined builder dropped, and switching to chain 1 afterwards keeps both the gate and the list. |
| HomePage.Home.constructor | packages/nextjs/app/page.tsx:12-13 | on mount the list is empty and the gate is closed. |
| HomePage.Home.OnEventHistory | packages/nextjs/app/page.tsx:52-62 | the new state is one merge step of the old one. The setter is called exactly when the guard holds and the filter kept a builder. Then the list becomes the old list plus the filtered builders; otherwise it is unchanged. |
| HomePage.Home.OnChain | packages/nextjs/app/page.tsx:65-69 | the new state is one gate step of the old one. The gate is open afterwards if and only if it was open before or the chain id is 10. |

## Left out

- The hooks `usePublicClient`, `useScaffoldContractRead` and `useScaffoldEventHistory` call external code: RPC, contract reads, event polling, the `watch` subscription and the `fromBlock` literal. Only their outputs are modelled, as a chain id and as `(isLoading, Option<data>)` pairs.
- React's effect scheduling and re-render timing are not modelled. Each effect run is one sequential step on a single list. This includes the gap between the closure's `checkedInBuilders` and the `currentBuilders` passed to the functional setter: the model assumes both are the same list.
- The JSX is not modelled: the connect prompt, the loading spinner, the table, CSS classes, icons and links are pure presentation. The `Address` component and ENS resolution are external rendering.
- Only the `builder` argument of each event record is modelled, as `Option<string>`. The rest of the record is unused by the page.
- `FormatAddress` treats only the empty string as falsy. That is the only falsy value of its declared `string` type.
- The counter is modelled as `Option<int>` in place of a `bigint`. Its cell is modelled as loading dots or as its optional text, without the markup.
- Substring: indices and lengths count Unicode scalar values (Dafny's `char`), while JavaScript's `substring` counts UTF-16 code units. The two agree on every string inside the Basic Multilingual Plane, ASCII included, and builder addresses are hexadecimal ASCII. On a character outside that plane, JavaScript can split a surrogate pair where the model keeps the character whole.
- SubstringFrom: the suffix is taken over Unicode scalar values rather than UTF-16 code units. This agrees with JavaScript on Basic Multilingual Plane and ASCII input only.
- FormatAddress: `|address|`, the first five and the last four count Unicode scalar values, while `address.length` and `substring` count UTF-16 code units. The result is the same for Basic Multilingual Plane and ASCII addresses. For an address holding a character outside that plane, JavaScript may cut the character in half; the model does not.
- FormatAddressShort: "at most four characters" counts Unicode scalar values. A string of four scalar values that contains characters outside the Basic Multilingual Plane is longer than four in JavaScript, so JavaScript does not show it whole. The lemma agrees with JavaScript on Basic Multilingual Plane and ASCII input.
