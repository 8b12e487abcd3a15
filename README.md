# Hitokoto quote selection

A Dafny model of the quote hook `useHitokoto` of a personal site front-end
(`src/hooks/biz/use-hitokoto.ts`). The hook shows a short quote ("hitokoto")
and offers a refresh button. Its logic is a priority chain over three sources:

1. the random quote fetched from the quote API. It is used only when the
   configuration has `random` on and the query holds data.
2. the configured `custom` text. It is used only when it is truthy, that is,
   present and non-empty.
3. the built-in default quote `DefaultHitokoto`.

A fetched record `{hitokoto, from, from_who}` is formatted as the quote
followed by `"  ——"` and the author. The author is `from_who`, falling back to
`from` under JavaScript truthiness. With no author the quote is shown alone.
`refresh` asks the query for a new quote only in random mode, and
`canRefresh` reports the same flag. An absent configuration counts as
random mode off.

Everything lives in `hitokoto.dfy`, module `Hitokoto`:

- `Option`, `HitokotoResponse`, `HitokotoConfig` and `HitokotoHook` are the data model.
- `Truthy` and `RandomEnabled` give JavaScript truthiness.
- `Author`, `FormatHitokoto`, `SelectedSource` and `HitokotoText` are the formatter and the chain.
- `RefreshIssuesRefetch` and the class `HitokotoQuery`, whose refetch counter
  stands in for the query's `refetch`, model the refresh gate.
- `FirstPresent` is an independent reference definition of a priority chain
  ("first present candidate, else a fallback"). `TextIsPriorityChain` proves
  that the hook's text equals that chain over its two candidates with the
  default as fallback.

One might expect the displayed text never to be empty; the code does not
guarantee this. A fetched record with an empty quote and no
author is shown as `""` even when a custom text is configured, because the
chain tests whether data is present, not whether its formatted text is
truthy. The model follows the code. `NonFetchedTextNonEmpty` proves that
non-emptiness holds for every text that does not come from fetched data.
`FetchedTextCanBeEmpty` and `EmptyTextIff` show exactly when it fails.

## Model

| member | source | states |
|---|---|---|
| Hitokoto.Author | src/hooks/biz/use-hitokoto.ts:29-33 | the author is `from_who` when truthy; otherwise it is `from` when non-empty; otherwise there is none; a present author is always non-empty |
| Hitokoto.FormatHitokoto | src/hooks/biz/use-hitokoto.ts:29-37 | the output starts with the quote text; with no author it is the quote alone; with an author it is the quote, then "  ——", then exactly the author |
| Hitokoto.HitokotoText | src/hooks/biz/use-hitokoto.ts:10-56 | the text is the formatted quote, the custom text or the default, as the selected source says; any text not taken from fetched data is non-empty |
| Hitokoto.UseHitokoto | src/hooks/biz/use-hitokoto.ts:58-62 | the hook returns the chain's text and a `canRefresh` equal to the refresh gate; with refresh off, the text is non-empty and does not depend on fetched data |
| Hitokoto.HitokotoQuery.Refresh | src/hooks/biz/use-hitokoto.ts:39-43 | refresh issues a refetch exactly when a configuration is present and its `random` is true: the refetch count goes up by one then and is unchanged otherwise |
| Hitokoto.FirstPresentIsFirst | src/hooks/biz/use-hitokoto.ts:45-46 | a priority chain yields its first present candidate, and the fallback when no candidate is present |
| Hitokoto.TextIsPriorityChain | src/hooks/biz/use-hitokoto.ts:45-56 | the displayed text is the chain random > custom > default: the fetched candidate (present in random mode with data), then the truthy custom text, then the default |
| Hitokoto.FetchedWinsOverCustom | src/hooks/biz/use-hitokoto.ts:47-49 | in random mode with data present the text is the formatted quote, whatever the custom text is |
| Hitokoto.DataIgnoredUnlessRandom | src/hooks/biz/use-hitokoto.ts:47-55 | with random mode off or no configuration, fetched data does not affect the text: it is the truthy custom text, else the default |
| Hitokoto.NoDataFallsBack | src/hooks/biz/use-hitokoto.ts:47-55 | in random mode with no data, the text is the truthy custom text, else the default |
| Hitokoto.FormatExample | src/hooks/biz/use-hitokoto.ts:29-37 | `{hitokoto:"A", from:"B", from_who:null}` gives "A  ——B"; an empty `from_who` behaves like null; a non-empty one wins |
| Hitokoto.CustomExample | src/hooks/biz/use-hitokoto.ts:51-55 | `{random:false, custom:"hello"}` shows "hello"; an empty custom text or no configuration shows the default |
| Hitokoto.NonFetchedTextNonEmpty | src/hooks/biz/use-hitokoto.ts:51-55 | whenever the text does not come from fetched data it is non-empty |
| Hitokoto.FetchedTextCanBeEmpty | src/hooks/biz/use-hitokoto.ts:47-49 | there is a configuration with a truthy custom text and fetched data for which the displayed text is empty |
| Hitokoto.EmptyTextIff | src/hooks/biz/use-hitokoto.ts:29-56 | the text is empty iff random mode is on, data is present, its quote is empty and it has no author |

## Left out

- The `fetch` of the quote API and its `response.ok` check (use-hitokoto.ts:17-21) are network I/O. A query with no successful fetch yet has no data (`None`); a failed refetch keeps the previous record, which is `Some`.
- JSON decoding (use-hitokoto.ts:22) is left out. The decoded record is an input, and `from` is taken to be a string as the `HitokotoResponse` interface declares, so a JSON `null` in `from` is not modelled.
- The query library's `enabled` flag, 2-second stale time and two retries (use-hitokoto.ts:15-27) are caching and retry behaviour of a library the model cannot see. The query's current result is an input, `Option<HitokotoResponse>`.
- `useAppConfigSelector` (use-hitokoto.ts:13) is an external configuration provider. Its value is passed in as `Option<HitokotoConfig>`.
- Hitokoto.HitokotoQuery.Refresh: the query library's `refetch` is represented only by a refetch counter. What a refetch then returns is not modelled.
- `src/components/modules/shared/BackgroundImageProvider.tsx` is not part of this model. It is floating-point animation over browser timers, scroll events and image loading.
- `open-next.config.ts` is not part of this model. It is static deployment configuration for a foreign library.
