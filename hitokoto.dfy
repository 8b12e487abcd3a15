/** A model of the quote ("hitokoto") hook of the site: how the text shown
    under the hero section is chosen from a fetched random quote, the
    configured custom quote and a built-in default, and when a refresh asks
    the query layer for a new quote.

    The network request, JSON decoding and the query library's caching and
    retry behaviour are outside the model: the query's current result is an
    input, `Option<HitokotoResponse>`, and the configuration provider's value
    is an input too. */
module Hitokoto {

  datatype Option<+T> = None | Some(value: T)

  /** A quote record as the quote API returns it. `from` is declared as a
      plain string, `fromWho` may be null. */
  datatype HitokotoResponse = HitokotoResponse(hitokoto: string, from: string, fromWho: Option<string>)

  /** The `hero.hitokoto` section of the application configuration. */
  datatype HitokotoConfig = HitokotoConfig(random: bool, custom: Option<string>)

  /** What the hook hands to its caller: the text, and whether refreshing
      does anything. The refresh callback itself is `RefreshIssuesRefetch`. */
  datatype HitokotoHook = HitokotoHook(text: string, canRefresh: bool)

  /** The built-in quote shown when nothing else applies. */
  const DefaultHitokoto: string := "当第一颗卫星飞向大气层外，我们便以为自己终有一日会征服宇宙。"

  /** The separator between the quote and its author: two spaces and two em dashes. */
  const AuthorSeparator: string := "  ——"

  /** JavaScript truthiness of an optional string: null, undefined and "" are falsy. */
  predicate Truthy(s: Option<string>) {
    s.Some? && s.value != ""
  }

  /** `!!hitokotoConfig?.random`: an absent configuration counts as false. */
  predicate RandomEnabled(config: Option<HitokotoConfig>) {
    config.Some? && config.value.random
  }

  /** `from_who || from`, kept only when truthy: the author, if there is one. */
  function Author(d: HitokotoResponse): (a: Option<string>)
    ensures Truthy(a) <==> a.Some?
    ensures Truthy(d.fromWho) ==> a == d.fromWho
    ensures !Truthy(d.fromWho) ==> (a.Some? <==> d.from != "")
    ensures a.Some? && !Truthy(d.fromWho) ==> a.value == d.from
  {
    if Truthy(d.fromWho) then d.fromWho
    else if d.from != "" then Some(d.from)
    else None
  }

  /** The display form of a fetched quote: the quote, then the separator and
      the author when there is an author. */
  function FormatHitokoto(d: HitokotoResponse): (r: string)
    ensures |d.hitokoto| <= |r| && r[..|d.hitokoto|] == d.hitokoto
    ensures Author(d).None? ==> r == d.hitokoto
    ensures Author(d).Some? ==>
              |r| == |d.hitokoto| + |AuthorSeparator| + |Author(d).value| &&
              r[|d.hitokoto|..|d.hitokoto| + |AuthorSeparator|] == AuthorSeparator &&
              r[|d.hitokoto| + |AuthorSeparator|..] == Author(d).value
  {
    match Author(d)
    case Some(author) => d.hitokoto + AuthorSeparator + author
    case None => d.hitokoto
  }

  /** Where the displayed text comes from. */
  datatype Source = Fetched | Custom | Default

  /** The priority `random > custom > default`: the fetched quote is used only
      in random mode with data present, the custom text only when truthy. */
  function SelectedSource(config: Option<HitokotoConfig>, data: Option<HitokotoResponse>): (s: Source)
  {
    if RandomEnabled(config) && data.Some? then Fetched
    else if config.Some? && Truthy(config.value.custom) then Custom
    else Default
  }

  /** The text the hook displays. */
  function HitokotoText(config: Option<HitokotoConfig>, data: Option<HitokotoResponse>): (r: string)
    ensures SelectedSource(config, data) == Fetched ==> r == FormatHitokoto(data.value)
    ensures SelectedSource(config, data) == Custom ==> r == config.value.custom.value
    ensures SelectedSource(config, data) == Default ==> r == DefaultHitokoto
    ensures SelectedSource(config, data) != Fetched ==> r != ""
  {
    if RandomEnabled(config) && data.Some? then FormatHitokoto(data.value)
    else if config.Some? && Truthy(config.value.custom) then config.value.custom.value
    else DefaultHitokoto
  }

  /** Whether calling the hook's `refresh` asks the query for a new quote. */
  function RefreshIssuesRefetch(config: Option<HitokotoConfig>): (issued: bool)
  {
    RandomEnabled(config)
  }

  /** The whole value the hook returns for one render. */
  function UseHitokoto(config: Option<HitokotoConfig>, data: Option<HitokotoResponse>): (h: HitokotoHook)
    ensures h.text == HitokotoText(config, data)
    ensures h.canRefresh <==> RefreshIssuesRefetch(config)
    ensures !h.canRefresh ==> h.text != "" && (forall other :: HitokotoText(config, other) == h.text)
  {
    HitokotoHook(HitokotoText(config, data), RandomEnabled(config))
  }

  /** The query's refetch side: counts the refetches that `refresh` issues. */
  class HitokotoQuery {
    var refetches: nat

    constructor ()
      ensures refetches == 0
    {
      refetches := 0;
    }

    /** `refreshHitokoto`: refetch only in random mode, otherwise do nothing. */
    method Refresh(config: Option<HitokotoConfig>)
      modifies this
      ensures refetches == old(refetches) + (if config.Some? && config.value.random then 1 else 0)
    {
      if RandomEnabled(config) {
        refetches := refetches + 1;
      }
    }
  }

  // ---------------------------------------------------------------------
  // A reference definition of the priority chain: the first candidate that
  // is present, or the fallback.

  function FirstPresent(candidates: seq<Option<string>>, fallback: string): (r: string)
  {
    if candidates == [] then fallback
    else if candidates[0].Some? then candidates[0].value
    else FirstPresent(candidates[1..], fallback)
  }

  /** The result of the chain is the first present candidate, and the
      fallback when none is present. */
  lemma {:induction false} FirstPresentIsFirst(candidates: seq<Option<string>>, fallback: string)
    ensures (forall i :: 0 <= i < |candidates| ==> candidates[i].None?) ==>
              FirstPresent(candidates, fallback) == fallback
    ensures forall i :: (0 <= i < |candidates| && candidates[i].Some? &&
                         (forall j :: 0 <= j < i ==> candidates[j].None?)) ==>
                        FirstPresent(candidates, fallback) == candidates[i].value
  {
    if candidates != [] {
      FirstPresentIsFirst(candidates[1..], fallback);
      forall i | 0 <= i < |candidates| && candidates[i].Some? &&
                 (forall j :: 0 <= j < i ==> candidates[j].None?)
        ensures FirstPresent(candidates, fallback) == candidates[i].value
      {
        if i > 0 {
          assert candidates[0].None?;
          assert candidates[1..][i - 1] == candidates[i];
          forall j | 0 <= j < i - 1 ensures candidates[1..][j].None? {
            assert candidates[1..][j] == candidates[j + 1];
          }
        }
      }
      if forall i :: 0 <= i < |candidates| ==> candidates[i].None? {
        forall j | 0 <= j < |candidates[1..]| ensures candidates[1..][j].None? {
          assert candidates[1..][j] == candidates[j + 1];
        }
      }
    }
  }

  /** The fetched candidate: present only in random mode with data present,
      even when the formatted text is empty. */
  function FetchedCandidate(config: Option<HitokotoConfig>, data: Option<HitokotoResponse>): (r: Option<string>)
  {
    if RandomEnabled(config) && data.Some? then Some(FormatHitokoto(data.value)) else None
  }

  /** The custom candidate: present only when the custom text is truthy. */
  function CustomCandidate(config: Option<HitokotoConfig>): (r: Option<string>)
  {
    if config.Some? && Truthy(config.value.custom) then config.value.custom else None
  }

  /** The displayed text is the priority chain random > custom > default. */
  lemma TextIsPriorityChain(config: Option<HitokotoConfig>, data: Option<HitokotoResponse>)
    ensures HitokotoText(config, data) ==
            FirstPresent([FetchedCandidate(config, data), CustomCandidate(config)], DefaultHitokoto)
  {
    var cs := [FetchedCandidate(config, data), CustomCandidate(config)];
    FirstPresentIsFirst(cs, DefaultHitokoto);
    if cs[0].None? && cs[1].Some? {
      assert forall j :: 0 <= j < 1 ==> cs[j].None?;
    }
  }

  // ---------------------------------------------------------------------
  // Properties of the selection.

  /** In random mode with data present the fetched quote wins, whatever the
      custom text says. */
  lemma FetchedWinsOverCustom(random: bool, custom1: Option<string>, custom2: Option<string>, d: HitokotoResponse)
    requires random
    ensures HitokotoText(Some(HitokotoConfig(random, custom1)), Some(d)) == FormatHitokoto(d)
    ensures HitokotoText(Some(HitokotoConfig(random, custom1)), Some(d)) ==
            HitokotoText(Some(HitokotoConfig(random, custom2)), Some(d))
  {
  }

  /** Outside random mode (or without configuration) fetched data is ignored:
      the text is the custom text when truthy, else the default. */
  lemma DataIgnoredUnlessRandom(config: Option<HitokotoConfig>, data: Option<HitokotoResponse>)
    requires !RandomEnabled(config)
    ensures HitokotoText(config, data) == HitokotoText(config, None)
    ensures HitokotoText(config, data) ==
            if config.Some? && Truthy(config.value.custom) then config.value.custom.value else DefaultHitokoto
  {
  }

  /** In random mode with no data (no fetch has succeeded yet; a failed
      refetch keeps the previous record, which is data present) the text
      falls back to the custom text, then to the default. */
  lemma NoDataFallsBack(config: HitokotoConfig)
    requires config.random
    ensures HitokotoText(Some(config), None) ==
            if Truthy(config.custom) then config.custom.value else DefaultHitokoto
  {
  }

  /** For example, `{hitokoto: "A", from: "B", from_who: null}` shows as "A  ——B". */
  lemma FormatExample()
    ensures FormatHitokoto(HitokotoResponse("A", "B", None)) == "A  ——B"
    ensures FormatHitokoto(HitokotoResponse("A", "B", Some(""))) == "A  ——B"
    ensures FormatHitokoto(HitokotoResponse("A", "B", Some("C"))) == "A  ——C"
    ensures FormatHitokoto(HitokotoResponse("A", "", None)) == "A"
  {
  }

  /** A custom text is shown verbatim when random mode is off. */
  lemma CustomExample()
    ensures HitokotoText(Some(HitokotoConfig(false, Some("hello"))), None) == "hello"
    ensures HitokotoText(Some(HitokotoConfig(false, Some(""))), None) == DefaultHitokoto
    ensures HitokotoText(None, None) == DefaultHitokoto
  {
  }

  /** Text that does not come from fetched data is never empty. */
  lemma NonFetchedTextNonEmpty(config: Option<HitokotoConfig>, data: Option<HitokotoResponse>)
    requires !(RandomEnabled(config) && data.Some?)
    ensures HitokotoText(config, data) != ""
  {
  }

  /** Fetched text, on the other hand, can be empty: an empty quote with no
      author is shown as "" even when a custom text is configured. */
  lemma FetchedTextCanBeEmpty()
    ensures exists config: Option<HitokotoConfig>, data: Option<HitokotoResponse> ::
              Truthy(CustomCandidate(config)) && HitokotoText(config, data) == ""
  {
    var config := Some(HitokotoConfig(true, Some("x")));
    var data := Some(HitokotoResponse("", "", None));
    assert Truthy(CustomCandidate(config)) && HitokotoText(config, data) == "";
  }

  /** The displayed text is empty exactly when a fetched quote with an empty
      quote text and no author is shown. */
  lemma EmptyTextIff(config: Option<HitokotoConfig>, data: Option<HitokotoResponse>)
    ensures HitokotoText(config, data) == "" <==>
            RandomEnabled(config) && data.Some? && data.value.hitokoto == "" && Author(data.value).None?
  {
    if RandomEnabled(config) && data.Some? && Author(data.value).Some? {
      assert |FormatHitokoto(data.value)| >= |AuthorSeparator|;
    }
  }
}
