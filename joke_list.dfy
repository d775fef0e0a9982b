/** The list of joke sentences behind the card stack: it starts with one
    placeholder, grows at the end when a fetch completes and loses every
    entry with a given id when a card is dismissed. */
module JokeLists {
  import opened Jokes
  import JokeService

  /** No two entries share an id. */
  ghost predicate DistinctIds(s: seq<JokeSentence>)
  {
    forall i, j :: 0 <= i < j < |s| ==> s[i].id != s[j].id
  }

  /** Some entry of `s` has id `id`. */
  predicate HasId(s: seq<JokeSentence>, id: Id)
  {
    exists i :: 0 <= i < |s| && s[i].id == id
  }

  /** `r` is `s` with some entries left out and the rest in their order. */
  predicate IsSubsequence(r: seq<JokeSentence>, s: seq<JokeSentence>)
    decreases |s|
  {
    if r == [] then true
    else if s == [] then false
    else (r[0] == s[0] && IsSubsequence(r[1..], s[1..])) || IsSubsequence(r, s[1..])
  }

  /** `s` with every entry whose id is `id` removed. */
  function Without(s: seq<JokeSentence>, id: Id): (r: seq<JokeSentence>)
    ensures |r| <= |s|
    ensures forall x :: x in r ==> x in s && x.id != id
    ensures forall x :: x in s && x.id != id ==> x in r
  {
    if s == [] then []
    else if s[0].id == id then Without(s[1..], id)
    else [s[0]] + Without(s[1..], id)
  }

  /** Removing an id that no entry has changes nothing. */
  lemma {:induction false} WithoutAbsent(s: seq<JokeSentence>, id: Id)
    requires !HasId(s, id)
    ensures Without(s, id) == s
  {
    if s != [] {
      assert s[0].id != id;
      assert !HasId(s[1..], id) by {
        forall i | 0 <= i < |s[1..]| ensures s[1..][i].id != id {
          assert s[1..][i] == s[i + 1];
        }
      }
      WithoutAbsent(s[1..], id);
      assert s == [s[0]] + s[1..];
    }
  }

  /** Removal works piecewise: on a concatenation it removes from each part. */
  lemma {:induction false} WithoutConcat(s: seq<JokeSentence>, t: seq<JokeSentence>, id: Id)
    ensures Without(s + t, id) == Without(s, id) + Without(t, id)
  {
    if s == [] {
      assert s + t == t;
    } else {
      assert (s + t)[0] == s[0];
      assert (s + t)[1..] == s[1..] + t;
      WithoutConcat(s[1..], t, id);
    }
  }

  /** The entries that survive a removal keep their relative order. */
  lemma {:induction false} WithoutIsSubsequence(s: seq<JokeSentence>, id: Id)
    ensures IsSubsequence(Without(s, id), s)
  {
    if s != [] {
      WithoutIsSubsequence(s[1..], id);
      var rest := Without(s[1..], id);
      if s[0].id != id {
        assert ([s[0]] + rest)[0] == s[0] && ([s[0]] + rest)[1..] == rest;
      }
    }
  }

  /** Removing twice is removing once. */
  lemma {:induction false} WithoutIdempotent(s: seq<JokeSentence>, id: Id)
    ensures Without(Without(s, id), id) == Without(s, id)
  {
    if s != [] {
      WithoutIdempotent(s[1..], id);
      if s[0].id != id {
        var rest := Without(s[1..], id);
        assert ([s[0]] + rest)[0] == s[0] && ([s[0]] + rest)[1..] == rest;
      }
    }
  }

  /** A removal preserves distinct ids. */
  lemma {:induction false} WithoutKeepsDistinct(s: seq<JokeSentence>, id: Id)
    requires DistinctIds(s)
    ensures DistinctIds(Without(s, id))
  {
    if s != [] {
      assert DistinctIds(s[1..]) by {
        forall i, j | 0 <= i < j < |s[1..]| ensures s[1..][i].id != s[1..][j].id {
          assert s[1..][i] == s[i + 1] && s[1..][j] == s[j + 1];
        }
      }
      WithoutKeepsDistinct(s[1..], id);
      var rest := Without(s[1..], id);
      if s[0].id != id {
        var r := [s[0]] + rest;
        forall i, j | 0 <= i < j < |r| ensures r[i].id != r[j].id {
          if i == 0 {
            assert r[j] == rest[j - 1] && r[j] in s[1..];
            var k :| 0 <= k < |s[1..]| && s[1..][k] == r[j];
            assert s[k + 1] == r[j];
          } else {
            assert r[i] == rest[i - 1] && r[j] == rest[j - 1];
          }
        }
      }
    }
  }

  /** With distinct ids, removing the id of a present entry shortens the
      list by exactly one. */
  lemma {:induction false} WithoutPresentDistinct(s: seq<JokeSentence>, k: nat)
    requires DistinctIds(s) && k < |s|
    ensures Without(s, s[k].id) == s[..k] + s[k + 1..]
    ensures |Without(s, s[k].id)| == |s| - 1
  {
    var id := s[k].id;
    assert s == s[..k] + [s[k]] + s[k + 1..];
    WithoutConcat(s[..k] + [s[k]], s[k + 1..], id);
    WithoutConcat(s[..k], [s[k]], id);
    assert !HasId(s[..k], id) by {
      forall i | 0 <= i < k ensures s[..k][i].id != id {
        assert s[..k][i] == s[i];
      }
    }
    var after := s[k + 1..];
    assert !HasId(after, id) by {
      forall i | 0 <= i < |after| ensures after[i].id != id {
        assert after[i] == s[k + 1 + i];
      }
    }
    WithoutAbsent(s[..k], id);
    WithoutAbsent(s[k + 1..], id);
    assert Without([s[k]], id) == [] by {
      assert [s[k]][1..] == [];
    }
  }

  /** Dismissing the top card of a list with distinct ids drops exactly that
      card and keeps the rest as it was. */
  lemma WithoutTop(s: seq<JokeSentence>)
    requires DistinctIds(s) && |s| > 0
    ensures Without(s, s[|s| - 1].id) == s[..|s| - 1]
  {
    WithoutPresentDistinct(s, |s| - 1);
    assert s[|s|..] == [];
  }

  /** The sentence list of the screen. `nextId` stands for the UUID
      generator: every id below it has been handed out. */
  class JokeList {
    var sentences: seq<JokeSentence>
    var nextId: Id

    ghost predicate Valid()
      reads this
    {
      DistinctIds(sentences) &&
      forall i :: 0 <= i < |sentences| ==> sentences[i].id < nextId
    }

    /** A new list holds the placeholder only. */
    constructor ()
      ensures Valid()
      ensures |sentences| == 1 && sentences[0].content == Placeholder
    {
      sentences := [JokeSentence(0, Placeholder)];
      nextId := 1;
    }

    /** A fresh id, never handed out before and so on no entry. */
    method NewId() returns (id: Id)
      requires Valid()
      modifies this`nextId
      ensures Valid()
      ensures id == old(nextId) && nextId == id + 1
      ensures !HasId(sentences, id)
    {
      id := nextId;
      nextId := nextId + 1;
    }

    /** Appends a sentence after all present ones. */
    method Append(s: JokeSentence)
      requires Valid() && s.id < nextId && !HasId(sentences, s.id)
      modifies this`sentences
      ensures Valid()
      ensures sentences == old(sentences) + [s]
      ensures |sentences| == |old(sentences)| + 1 && sentences[|sentences| - 1] == s
      ensures sentences[..|old(sentences)|] == old(sentences)
    {
      sentences := sentences + [s];
      assert sentences[..|old(sentences)|] == old(sentences);
    }

    /** Removes every entry whose id is `id`. */
    method RemoveAll(id: Id)
      requires Valid()
      modifies this`sentences
      ensures Valid()
      ensures sentences == Without(old(sentences), id)
      ensures !HasId(sentences, id)
      ensures !HasId(old(sentences), id) ==> sentences == old(sentences)
    {
      WithoutKeepsDistinct(sentences, id);
      if !HasId(sentences, id) {
        WithoutAbsent(sentences, id);
      }
      sentences := Without(sentences, id);
    }

    /** Fetches one sentence for `category` and appends it, whatever the
        network answered. */
    method AddNewSentence(category: Category, net: JokeService.Network) returns (added: JokeSentence)
      requires Valid()
      modifies this
      ensures Valid()
      ensures sentences == old(sentences) + [added]
      ensures added.id == old(nextId) && nextId == old(nextId) + 1
      ensures added.content == JokeService.Display(JokeService.Fetch(JokeService.RequestUrl(Title(category)), net))
    {
      var id := NewId();
      added := JokeService.GetJokeSentence(id, category, net);
      Append(added);
    }
  }
}
