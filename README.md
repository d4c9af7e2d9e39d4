# FinSage decision logic, modelled in Dafny

FinSage is a Streamlit dashboard for business news. It fetches headlines from
NewsAPI, summarises each article with a local language model, scores its
sentiment with TextBlob and lists its named entities with spaCy. Almost all of
it is glue around those services. This project models the small layer of
decision logic in `app.py` that remains once each service's answer is taken as
an input:

- `analyze_sentiment`: two fixed thresholds map a polarity score to a label and
  a colour (module `Sentiment`). The polarity is a `real` input.
- `extract_financial_entities`: the recogniser's spans are filtered by an
  allow-list of labels and collected in a set (module `Entities`). The spans are a
  `seq<Entity>` input. The loop and the set accumulator are a `method`.
- the prompt table of `summarize_text`: four verbosity labels, each with a
  template holding one `{text}` slot, and the filling of that slot (module
  `Summarizer`). The model stops at the prompt that would be sent to the model.
- the keyword filter in `main`: a case-insensitive substring test on title or
  description, skipped for an empty keyword (module `Articles`).
- the field defaulting in `main`: `dict.get` defaults and `or` fallbacks for
  title, description, url and source name (module `Articles`).

Two helper modules hold the Python semantics the above rely on. `Json` has
decoded JSON keys, which are absent, `null` or present, plus Python's `None`,
truthiness and `or`. `Text` has ASCII `str.lower()`, the string `in` operator and
an occurrence count.

A JSON key is modelled three ways because `d.get(k, default)` does not treat an
absent key and a `null` value alike. Only an absent key yields the default. A
`null` title therefore stays `None`, and a `null` source makes
`.get("name", ...)` raise `AttributeError` (app.py:140). `CardOf` returns that as
`Raises(AttributeError)`.

An unknown verbosity label raises `KeyError` at app.py:45. The model makes it a
precondition of `SummaryPrompt`, because the only caller passes the selector's
value, and the selector offers exactly the four labels of the table
(app.py:127-132).

Three behaviours of the code are worth stating plainly. `summarize_text` has no
exception handler, so a failure of the language model propagates. `fetch_news`
catches only `requests.HTTPError` (app.py:28). `chatbot.py` only builds a prompt
and returns the reply; it keeps no transcript.

The helper functions `Json.Field.Get`, `Json.Field.GetOr`, `Json.Or` and
`Text.Lower` are the definitions of `d.get(k)`, `d.get(k, default)`, `x or y` and
ASCII `str.lower()` that the `CardOf` and `Matches` rows rely on. Their table rows
are the lemmas that state what callers need from them.

## Model

| member | source | states |
|---|---|---|
| `Sentiment.AnalyzeSentiment` | app.py:52-60 | the badge is ("Positive 😊","green") exactly when polarity > 0.1, ("Negative 😞","red") exactly when polarity < -0.1, ("Neutral 😐","gray") exactly when -0.1 <= polarity <= 0.1, and always one of the three |
| `Sentiment.BoundariesAreNeutral` | app.py:55-60 | both thresholds are strict: polarity 0.1 and -0.1 give Neutral |
| `Sentiment.Monotone` | app.py:55-60 | a larger polarity never gives a badge further toward Negative on Negative < Neutral < Positive |
| `Sentiment.LabelDeterminesColour` | app.py:55-60 | two results have the same label iff they have the same colour, so each label always keeps its colour |
| `Entities.FinancialTexts` | app.py:64-67 | the set built by the loop holds a text iff some input span with that text has a label in {ORG, GPE, MONEY, PRODUCT, PERSON} |
| `Entities.ExtractFinancialEntities` | app.py:62-68 | the returned list has no duplicates; a string is in it iff it is the text of an input span with an allow-listed label; its length is the number of distinct such texts; no spans give an empty list |
| `Entities.ListOf` | app.py:68 | `list(s)` holds each element of the set exactly once and nothing else |
| `Summarizer.TableDomain` | app.py:38-44 | the table's keys are exactly "Very Short", "Short", "Medium", "Long", and the default label "Short" is one of them |
| `Summarizer.TemplatesDistinct` | app.py:40-43 | two different labels never share a template |
| `Summarizer.TemplateShape` | app.py:40-43 | every template is an instruction without `{`, then a newline, then `{text}` |
| `Summarizer.SlotExactlyOnce` | app.py:40-43 | every template contains the `{text}` slot exactly once |
| `Summarizer.Instruction` | app.py:40-43 | each template equals its instruction (which has no `{`) followed by "\n{text}" |
| `Summarizer.SummaryPrompt` | app.py:38-48 | the filled prompt for a known label (default "Short") is the label's instruction, a newline, then the article text verbatim |
| `Summarizer.FillPlainPrefix` | app.py:45-48 | formatting copies text without `{` unchanged and carries on after it |
| `Summarizer.PromptEndsWithText` | app.py:45-48 | the article text ends the prompt unchanged, even when it contains braces or `{text}` itself |
| `Articles.KeywordFilter` | app.py:117-121 | the result is an order-preserving subsequence of the input; an article is in it iff it is in the input and the keyword is empty or matches; each kept article keeps its multiplicity and every other has none; an empty keyword returns the list unchanged |
| `Articles.SelectSpec` | app.py:118-121 | the comprehension keeps exactly the matching articles, as often as they occur, in their original order |
| `Articles.KeywordFilterIdempotent` | app.py:117-121 | filtering a filtered feed again with the same keyword changes nothing |
| `Articles.EmptyKeywordMatchesAll` | app.py:117-121 | running the comprehension with "" would also keep every article, so the `if keyword_filter` guard only skips work |
| `Articles.CaseInsensitive` | app.py:117-121 | two keywords with the same lower-case form keep the same articles |
| `Articles.NoMatchEmptiesFeed` | app.py:117-121 | a non-empty keyword that matches no title or description leaves no articles |
| `Articles.CardOf` | app.py:137-140 | title is "No Title" when absent, `None` when null, else itself; description is the non-empty description, else the title; url is "#" when absent; source name is "Unknown Source" when the source or its name is absent; a null source raises AttributeError, and nothing else does |
| `Articles.DescriptionFallsBackToTitle` | app.py:137-138 | the shown description is empty or `None` only when it equals the shown title, and a non-empty title always gives a non-empty description |
| `Articles.MissingTitleShowsText` | app.py:137-138 | an article without a title key shows "No Title" and a non-empty description |
| `Json.GetOrDiffersOnlyWhenMissing` | app.py:137-140 | `d.get(k, default)` and `d.get(k)` differ exactly when the key is absent, so `null` stays `None` under both |
| `Json.OrTruthy` | app.py:138 | `x or y` is truthy iff `x` or `y` is, and is falsy only when it equals `y` |
| `Json.OrEmpty` | app.py:119-120 | `x or ""` is the string, with `None` read as "" |
| `Text.LowerIdempotent` | app.py:119-120 | lower-casing an already lower-cased string changes nothing |
| `Text.LowerSlice` | app.py:119-120 | lower-casing commutes with taking a slice, so case folding works position by position |
| `Text.LowerKeepsEmptiness` | app.py:117-120 | a string is empty iff its lower-case form is, so lower-casing never changes whether the keyword guard is taken |
| `Text.ContainsAt` | app.py:119-120 | `needle in hay` holds iff `needle` equals the slice of `hay` at some position |
| `Text.ContainsIffOccurs` | app.py:119-120 | `needle in hay` holds iff `needle` occurs at least once |
| `Text.EmptyInEverything` | app.py:117-121 | "" is in every string |

## Left out

- `fetch_news` (app.py:18-30): an HTTP request, JSON decoding and error display; it is I/O. The fetched list is an input of `KeywordFilter`.
- The language-model calls (app.py:33-34, 46-48, 134) and all of `chatbot.py`: foreign services. `SummaryPrompt` stops at the prompt text.
- The TextBlob polarity (app.py:53-54) and the spaCy recogniser (app.py:11, 63): foreign libraries whose results are inputs here.
- `@st.cache_data` memoisation of `summarize_text` (app.py:37): framework behaviour, not code of the repository.
- All Streamlit rendering, CSS and HTML strings, the slider, the selector and the spinners (app.py:70-171): user interface. That includes the "No articles found" warning at app.py:123-125 and the per-article loop that feeds `CardOf`'s fields to the page.
- Python floats: polarity and thresholds are exact `real`s, so `0.1` here is exactly one tenth and NaN does not arise.
- Text.Lower: lower-cases ASCII letters only, because Unicode case mapping is outside the model.
- Summarizer.Fill: replaces `{text}` slots only; the escapes `{{` and `}}` and other fields that Python formatting would also handle do not occur in the four templates.
- JSON values of other types than strings and objects in the article fields, and articles that are not objects, are not modelled.
- The order of the list returned by `extract_financial_entities` comes from Python's set iteration order; `ExtractFinancialEntities` picks an arbitrary order and promises none.
