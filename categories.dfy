/**
 * The category-selection rule of the add-blog page. The selected categories
 * are an ordered list of opaque names; a click removes a selected name,
 * appends an unselected one while fewer than three are selected, and is
 * ignored otherwise.
 */
module CategorySelection {

  /** Most categories a post may carry. */
  const MaxCategories := 3

  /** No name occurs twice. */
  predicate NoDup(s: seq<string>)
  {
    forall i, j :: 0 <= i < j < |s| ==> s[i] != s[j]
  }

  /** The invariant every click keeps: at most three entries, all distinct. */
  predicate WellFormed(s: seq<string>)
  {
    NoDup(s) && |s| <= MaxCategories
  }

  /** The list with every occurrence of `c` filtered out, the rest in order. */
  function Without(s: seq<string>, c: string): (r: seq<string>)
    ensures |r| <= |s|
    ensures forall x :: x in r <==> x in s && x != c
    ensures c in s ==> |r| < |s|
  {
    if s == [] then []
    else
      assert s == [s[0]] + s[1..];
      (if s[0] == c then [] else [s[0]]) + Without(s[1..], c)
  }

  /**
   * True when a click on `c` must be ignored: the list is full and `c` is not
   * in it. (Despite the name, true means "blocked".)
   */
  function IsValidCategory(s: seq<string>, c: string): (blocked: bool)
    ensures c in s ==> !blocked
    ensures blocked ==> |s| >= MaxCategories
    ensures |s| < MaxCategories ==> !blocked
  {
    |s| >= MaxCategories && c !in s
  }

  /** The list after a click on `c`. */
  function Toggle(s: seq<string>, c: string): (r: seq<string>)
    ensures c in r <==> c !in s && |s| < MaxCategories
    ensures forall x :: x != c ==> (x in r <==> x in s)
  {
    if IsValidCategory(s, c) then s
    else if c in s then Without(s, c)
    else s + [c]
  }

  /** Filtering drops every occurrence of `c` and keeps every other entry as often as it occurred. */
  lemma {:induction false} WithoutCounts(s: seq<string>, c: string)
    ensures multiset(Without(s, c)) == multiset(s)[c := 0]
  {
    if s != [] {
      WithoutCounts(s[1..], c);
      assert s == [s[0]] + s[1..];
    }
  }

  lemma {:induction false} WithoutAbsent(s: seq<string>, c: string)
    requires c !in s
    ensures Without(s, c) == s
  {
    if s != [] {
      WithoutAbsent(s[1..], c);
    }
  }

  /** Filtering distributes over concatenation, so the survivors keep their order. */
  lemma {:induction false} WithoutConcat(a: seq<string>, b: seq<string>, c: string)
    ensures Without(a + b, c) == Without(a, c) + Without(b, c)
  {
    if a == [] {
      assert a + b == b;
    } else {
      assert (a + b)[1..] == a[1..] + b;
      WithoutConcat(a[1..], b, c);
    }
  }

  lemma {:induction false} WithoutKeepsNoDup(s: seq<string>, c: string)
    requires NoDup(s)
    ensures NoDup(Without(s, c))
  {
    if s != [] {
      WithoutKeepsNoDup(s[1..], c);
      var tail := Without(s[1..], c);
      assert s[0] !in s[1..];
      if s[0] != c {
        forall i, j | 0 <= i < j < |[s[0]] + tail| ensures ([s[0]] + tail)[i] != ([s[0]] + tail)[j] {
          if i == 0 {
            assert ([s[0]] + tail)[j] == tail[j - 1];
          }
        }
      }
    }
  }

  /** In a list without duplicates, an entry occurs neither before nor after its position. */
  lemma NoDupSplit(pre: seq<string>, c: string, post: seq<string>)
    requires NoDup(pre + [c] + post)
    ensures c !in pre && c !in post
  {
    var s := pre + [c] + post;
    assert s[|pre|] == c;
    forall k | 0 <= k < |pre| ensures pre[k] != c {
      assert pre[k] == s[k];
    }
    forall k | 0 <= k < |post| ensures post[k] != c {
      assert post[k] == s[|pre| + 1 + k];
    }
  }

  lemma WithoutSingle(c: string)
    ensures Without([c], c) == []
  {
    assert [c][1..] == [];
  }

  /** Removing a name that occurs once, between `pre` and `post`, splices it out. */
  lemma WithoutSplice(pre: seq<string>, c: string, post: seq<string>)
    requires c !in pre && c !in post
    ensures Without(pre + [c] + post, c) == pre + post
  {
    WithoutAbsent(pre, c);
    WithoutAbsent(post, c);
    WithoutSingle(c);
    WithoutConcat([c], post, c);
    WithoutConcat(pre, [c] + post, c);
    assert pre + [c] + post == pre + ([c] + post);
    assert [] + post == post;
  }

  /** Every click keeps at most three distinct entries. */
  lemma ToggleKeepsWellFormed(s: seq<string>, c: string)
    requires WellFormed(s)
    ensures WellFormed(Toggle(s, c))
  {
    if IsValidCategory(s, c) {
    } else if c in s {
      WithoutKeepsNoDup(s, c);
    } else {
      var r := s + [c];
      forall i, j | 0 <= i < j < |r| ensures r[i] != r[j] {
        if j == |s| {
          assert r[i] == s[i];
        }
      }
    }
  }

  /** A click on a selected name removes every occurrence of it, at any length. */
  lemma ToggleSelected(s: seq<string>, c: string)
    requires c in s
    ensures Toggle(s, c) == Without(s, c)
    ensures c !in Toggle(s, c) && |Toggle(s, c)| < |s|
    ensures multiset(Toggle(s, c)) == multiset(s)[c := 0]
  {
    WithoutCounts(s, c);
  }

  /** A click on an unselected name once three are selected changes nothing. */
  lemma ToggleFull(s: seq<string>, c: string)
    requires c !in s && |s| >= MaxCategories
    ensures Toggle(s, c) == s
  {
  }

  /** A click on an unselected name while there is room appends it; a second click undoes it. */
  lemma ToggleAppendRoundTrip(s: seq<string>, c: string)
    requires c !in s && |s| < MaxCategories
    ensures Toggle(s, c) == s + [c]
    ensures Toggle(Toggle(s, c), c) == s
  {
    WithoutConcat(s, [c], c);
    WithoutAbsent(s, c);
    assert Without([c], c) == [];
  }

  /** Deselecting then reselecting an entry of a well-formed list moves it to the end. */
  lemma ToggleReselectMovesToEnd(pre: seq<string>, c: string, post: seq<string>)
    requires WellFormed(pre + [c] + post)
    ensures Toggle(Toggle(pre + [c] + post, c), c) == pre + post + [c]
  {
    NoDupSplit(pre, c, post);
    WithoutSplice(pre, c, post);
  }

  /** The list after a run of clicks, one after the other. */
  function ToggleAll(s: seq<string>, clicks: seq<string>): seq<string>
    decreases |clicks|
  {
    if clicks == [] then s else ToggleAll(Toggle(s, clicks[0]), clicks[1..])
  }

  /** No run of clicks, however long, takes a well-formed list past three entries or duplicates one. */
  lemma {:induction false} ToggleAllKeepsWellFormed(s: seq<string>, clicks: seq<string>)
    requires WellFormed(s)
    ensures WellFormed(ToggleAll(s, clicks))
    decreases |clicks|
  {
    if clicks != [] {
      ToggleKeepsWellFormed(s, clicks[0]);
      ToggleAllKeepsWellFormed(Toggle(s, clicks[0]), clicks[1..]);
    }
  }
}
