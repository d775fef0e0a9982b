/** The value types of the joke screen: a joke sentence and the closed set of
    joke categories with their titles. */
module Jokes {
  import opened Text

  /** An opaque sentence identity. The app draws a fresh UUID for every
      sentence; here identities are natural numbers handed out fresh. */
  type Id = nat

  /** One card: a fetched joke, an error description, or the placeholder. */
  datatype JokeSentence = JokeSentence(id: Id, content: string)

  datatype Option<T> = None | Some(value: T)

  /** Content of the one sentence the list starts with. */
  const Placeholder := "Slide to start"

  /** Sentence equality: two sentences are the same when their ids are,
      whatever their contents. */
  predicate Same(a: JokeSentence, b: JokeSentence)
  {
    a.id == b.id
  }

  /** Replacing the content of either sentence never changes whether the
      two are equal. */
  lemma SameIgnoresContent(a: JokeSentence, b: JokeSentence, t: string)
    ensures Same(a, b) <==> Same(a.(content := t), b)
    ensures Same(a, b) <==> Same(a, b.(content := t))
  {
  }

  /** The sentence equality is an equivalence relation. */
  lemma SameIsEquivalence(a: JokeSentence, b: JokeSentence, c: JokeSentence)
    ensures Same(a, a)
    ensures Same(a, b) ==> Same(b, a)
    ensures Same(a, b) && Same(b, c) ==> Same(a, c)
  {
  }

  /** The joke categories offered by the picker. */
  datatype Category = All | Programming | Miscellaneous | Dark | Pun | Spooky | Christmas

  /** The title shown in the picker and handed to the service. Every title
      is a non-empty run of ASCII letters, so it can stand as a URL path
      segment unescaped. */
  function Title(c: Category): (r: string)
    ensures |r| > 0
    ensures forall i :: 0 <= i < |r| ==> 'A' <= r[i] <= 'Z' || 'a' <= r[i] <= 'z'
  {
    match c
    case All => "All"
    case Programming => "Programming"
    case Miscellaneous => "Miscellaneous"
    case Dark => "Dark"
    case Pun => "Pun"
    case Spooky => "Spooky"
    case Christmas => "Christmas"
  }

  /** Only the title of `All` contains the text "All". */
  lemma TitleContainsAllIff(c: Category)
    ensures Contains(Title(c), "All") <==> c == All
  {
    if c == All {
      ContainsItself("All");
    } else {
      MissingFirstChar(Title(c), "All");
    }
  }

  /** Different categories have different titles. */
  lemma TitleInjective(c: Category, d: Category)
    ensures Title(c) == Title(d) ==> c == d
  {
    if Title(c) == Title(d) {
      assert |Title(c)| == |Title(d)| && Title(c)[0] == Title(d)[0];
    }
  }
}
