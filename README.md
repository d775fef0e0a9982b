# fastJokes, modelled in Dafny

fastJokes is a one-screen app. It shows jokes from the public JokeAPI as a
stack of cards. Dragging the top card more than 100 points to either side
dismisses it and asks the API for a new joke in the category chosen in the
picker. This project models the logic behind that screen and proves its
properties:

- `Jokes` (jokes.dfy): the joke sentence and its id-only equality, and the
  seven categories with their titles.
- `Text` (text.dfy): substring search, which the service uses to test
  whether a category title contains "All".
- `JokeService` (joke_service.dfy): request-URL selection, the single
  request, and the conversion of its outcome into a sentence. The network
  and the UTF-8 conversion are a `Network` value of oracles: `transport`
  maps a URL to a body or to an error description; `utf8` maps a body to
  text or to nothing; `conversionError` is the description of the error
  thrown when the conversion fails.
- `JokeLists` (joke_list.dfy): the sentence list. `Without` is the
  reference definition of removal by id. The class `JokeList` holds the
  list. Its `nextId` field stands for the UUID generator, so ids are
  abstract fresh naturals.
- `Cards` (content_view.dfy): the release rule, the per-card offset, and
  the screen state as a class. The `Task` that a dismissal starts is a
  pending entry in `fetches`. `CompleteFetch` completes any pending fetch,
  so no completion order is assumed.

Two facts about the code shape the model:

- There is no language selector: `lang=en` is fixed in both URL literals
  (fastJokes/services/JokeGenerationService.swift:28, 33).
- A dismissal removes every entry whose id matches (`removeAll`,
  fastJokes/ContentView.swift:112); `WithoutPresentDistinct` shows this
  drops exactly one entry when ids are distinct, and the class invariant
  keeps them distinct.

## Model

| member | source | states |
|---|---|---|
| `Text.Contains` | fastJokes/services/JokeGenerationService.swift:32 | the substring test is true exactly when the needle occurs at some position of the string |
| `Jokes.Same` | fastJokes/ContentView.swift:14-16 | two sentences are equal exactly when their ids are |
| `Jokes.Title` | fastJokes/ContentView.swift:29-45 | each category's title is its case name, a non-empty run of ASCII letters |
| `Jokes.SameIgnoresContent` | fastJokes/ContentView.swift:14-16 | replacing either sentence's content never changes whether the two are equal |
| `Jokes.SameIsEquivalence` | fastJokes/ContentView.swift:14-16 | sentence equality is reflexive, symmetric and transitive |
| `Jokes.TitleContainsAllIff` | fastJokes/ContentView.swift:29-45 | a category's title contains "All" if and only if the category is `All` |
| `Jokes.TitleInjective` | fastJokes/ContentView.swift:29-45 | different categories have different titles |
| `JokeService.AnyUrlShape` | fastJokes/services/JokeGenerationService.swift:28-33 | the wildcard URL literal is the endpoint, then `Any`, then the same query the other branch appends |
| `JokeService.SelectUrl` | fastJokes/services/JokeGenerationService.swift:28-34 | the URL is exactly the wildcard literal when the category string contains "All", and endpoint + category + query otherwise |
| `JokeService.ObtainJokeFromApi` | fastJokes/services/JokeGenerationService.swift:25-49 | one request for the selected URL: the decoded body on success; the transport error's description, or the conversion error's description for a non-UTF-8 body, on failure |
| `JokeService.GetJokeSentence` | fastJokes/services/JokeGenerationService.swift:15-23 | always returns a sentence with the given fresh id, whose content is what the request for the category's title produced, success or failure |
| `JokeService.Fetch` | fastJokes/services/JokeGenerationService.swift:40-48 | one GET of the URL: the UTF-8 text of the body, the transport error, or the conversion error for a body that is not UTF-8 |
| `JokeService.Display` | fastJokes/services/JokeGenerationService.swift:19-21 | the text a sentence shows for an outcome: the response text, or the thrown error's description |
| `JokeService.DisplayedContent` | fastJokes/services/JokeGenerationService.swift:16-22 | a decoded body is shown verbatim; a transport failure is shown as its description; an undecodable body is shown as the conversion error's description |
| `JokeService.AllUsesAnyUrl` | fastJokes/services/JokeGenerationService.swift:28-32 | the `All` category requests exactly the wildcard URL |
| `JokeService.CategorySegment` | fastJokes/services/JokeGenerationService.swift:32-33 | the path segment is `Any` if and only if the category is `All`, and the category's title otherwise |
| `JokeService.RequestShape` | fastJokes/services/JokeGenerationService.swift:28-33 | every category's URL starts with the same endpoint, ends with the same fixed query, and has its segment in between |
| `JokeService.RequestUrlInjective` | fastJokes/services/JokeGenerationService.swift:32-33 | different categories are requested at different URLs |
| `JokeLists.Without` | fastJokes/ContentView.swift:112 | removal by id keeps no entry with that id, keeps every other entry, and adds nothing |
| `JokeLists.WithoutAbsent` | fastJokes/ContentView.swift:112 | removing an id that no entry has leaves the list unchanged |
| `JokeLists.WithoutConcat` | fastJokes/ContentView.swift:112 | removal distributes over concatenation, so it acts on each entry independently |
| `JokeLists.WithoutIsSubsequence` | fastJokes/ContentView.swift:112 | the surviving entries keep their original relative order |
| `JokeLists.WithoutIdempotent` | fastJokes/ContentView.swift:112 | removing the same id twice is the same as removing it once |
| `JokeLists.WithoutKeepsDistinct` | fastJokes/ContentView.swift:112 | removal keeps ids distinct |
| `JokeLists.WithoutPresentDistinct` | fastJokes/ContentView.swift:112 | with distinct ids, removing a present entry's id drops exactly that entry and shortens the list by one |
| `JokeLists.WithoutTop` | fastJokes/ContentView.swift:111-112 | with distinct ids, dismissing the last entry leaves exactly the entries before it |
| `JokeLists.JokeList.constructor` | fastJokes/ContentView.swift:50-52 | a new list holds exactly one entry, "Slide to start" |
| `JokeLists.JokeList.NewId` | fastJokes/ContentView.swift:11 | each new id differs from every id in the list |
| `JokeLists.JokeList.Append` | fastJokes/ContentView.swift:61 | appending adds one entry at the end and leaves the earlier entries and their order unchanged |
| `JokeLists.JokeList.RemoveAll` | fastJokes/ContentView.swift:112 | the new list is `Without` of the old one: no entry has the id, and an absent id changes nothing |
| `JokeLists.JokeList.AddNewSentence` | fastJokes/ContentView.swift:57-63 | one fetch for the category, then its sentence (fresh id, fetched or error text) is appended |
| `Cards.Decide` | fastJokes/ContentView.swift:109 | release dismisses exactly when the horizontal offset's absolute value exceeds 100 |
| `Cards.OffsetOf` | fastJokes/ContentView.swift:101-102 | the card at the last index gets the live offset, every other card none |
| `Cards.DecideIff` | fastJokes/ContentView.swift:109-121 | release dismisses if and only if the horizontal offset is beyond 100 on either side; exactly 100 or -100 snaps back |
| `Cards.DecideSymmetricMonotone` | fastJokes/ContentView.swift:109 | the rule is the same in both directions, and a longer drag never snaps back where a shorter one dismisses |
| `Cards.OnlyTopMoves` | fastJokes/ContentView.swift:101-102 | only the card at the last index gets the live offset; every other index gets zero |
| `Cards.ContentView.constructor` | fastJokes/ContentView.swift:67-70 | the screen starts with the placeholder list, zero offset, no removed sentence and category `All` |
| `Cards.ContentView.SelectCategory` | fastJokes/ContentView.swift:82-86 | the picker sets the selected category |
| `Cards.ContentView.OnChanged` | fastJokes/ContentView.swift:105-107 | dragging sets only the horizontal offset |
| `Cards.ContentView.OnEnded` | fastJokes/ContentView.swift:91-122 | the released card is one of the list's entries; on dismissal the card is recorded as removed, its id leaves the list, and exactly one fetch is started with the selected category; a dismissed top card leaves exactly the entries below it; on snap-back nothing but the offset changes; the offset ends at zero either way |
| `Cards.ContentView.CompleteFetch` | fastJokes/ContentView.swift:113-115 | any pending fetch may complete next; it leaves the pending set and its sentence is appended under a fresh id, so it never shares an id with the last card dismissed from the list (`removedSentence`) |
| `Cards.SwipeScenario` | fastJokes/ContentView.swift:108-116 | starting the app, dragging -150 and releasing, then completing the fetch leaves one entry: the answer to the wildcard request, under an id other than the dismissed placeholder's |

## Left out

- `URLSession.shared.data(from:)`: network I/O. It is the `transport` oracle, with no retry, timeout or status check.
- `String(data:encoding: .utf8)`: a foreign library. Only its success or failure is kept, as the `utf8` oracle.
- `URL(string:)` parsing: a URL is modelled as its string. The guard on the literal cannot fail. `Jokes.Title` ensures every title is ASCII letters, so the forced unwrap on line 33 cannot fail for a title. For an arbitrary string that `URL(string:)` rejects, that unwrap traps, while `SelectUrl` returns the concatenated string; this trap is not modelled, and only titles reach this code (fastJokes/ContentView.swift:114 passes a category, whose title fastJokes/services/JokeGenerationService.swift:18 hands on).
- The text of `NSError` domains and of `localizedDescription`: platform formatting. Descriptions are opaque strings from the oracle. So nothing says a failure's text is non-empty.
- `Text.Contains`: Foundation's `contains` compares Unicode canonical equivalents; the model compares characters one by one.
- `DispatchQueue.main.async` and `Task { ... }`: concurrency. A completion is one atomic step that appends, in any order among the pending fetches.
- The "recent window" filter on `UUID.hashValue`: hash values are arbitrary and say nothing about recency, so every entry counts as displayed.
- UUID generation: replaced by the fresh ids from `JokeList.nextId`.
- The `counter` property and the `id: Int` parameter of `getJokeSentence`: `counter` is never incremented; it is read only to fill the `id` parameter, which `getJokeSentence` ignores.
- `CardView` and its `onRemove` callback: `onRemove` is never invoked, and the rest is layout.
- All SwiftUI layout, fonts, animations and `CGFloat` frame arithmetic: presentation and floating-point code. The drag offset is an unbounded `int`.
- The vertical drag offset: the code never changes it from zero, so it is zero throughout (part of `Valid`).
