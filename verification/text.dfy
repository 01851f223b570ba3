/*
 * String helpers shared by the brand resolver and the decision calls:
 * util::find, and the " or " join of the multiple-brand message.
 */
module Text {

  /** `k` occurs in `s` starting at position `i`. */
  predicate OccursAt(s: string, k: string, i: nat) {
    i + |k| <= |s| && s[i..i + |k|] == k
  }

  /** util::find: whether `k` occurs anywhere in `s` (the empty keyword occurs in every string). */
  function Find(s: string, k: string): (r: bool)
    ensures r <==> exists i :: OccursAt(s, k, i)
  {
    FindFrom(s, k, 0)
  }

  /** The search from position `i` on. */
  function FindFrom(s: string, k: string, i: nat): (r: bool)
    requires i <= |s|
    ensures r <==> exists j :: i <= j && OccursAt(s, k, j)
    decreases |s| - i
  {
    if i + |k| > |s| then
      assert forall j :: i <= j ==> !OccursAt(s, k, j);
      false
    else if s[i..i + |k|] == k then
      assert OccursAt(s, k, i);
      true
    else
      var r := FindFrom(s, k, i + 1);
      assert forall j :: i <= j && OccursAt(s, k, j) ==> i + 1 <= j;
      r
  }

  /** A string that starts with `k` contains it. */
  lemma PrefixIsFound(s: string, k: string)
    requires k <= s
    ensures Find(s, k)
  {
    assert s[0..|k|] == k;
    assert OccursAt(s, k, 0);
  }

  const SEPARATOR := " or "

  /** The labels joined by " or ", as the multiple-brand message writes them. */
  function Join(labels: seq<string>): (r: string)
    requires |labels| > 0
    ensures labels[0] <= r
    ensures |labels| == 1 ==> r == labels[0]
    decreases |labels|
  {
    if |labels| == 1 then labels[0]
    else
      var init := labels[..|labels| - 1];
      var rest := Join(init);
      assert init[0] == labels[0];
      rest + SEPARATOR + labels[|labels| - 1]
  }

  /** Joining one more label appends the separator and the label. */
  lemma JoinSnoc(labels: seq<string>, last: string)
    requires |labels| > 0
    ensures Join(labels + [last]) == Join(labels) + SEPARATOR + last
  {
    assert (labels + [last])[..|labels|] == labels;
  }

  /** With at least two labels the message contains the separator. */
  lemma JoinHasSeparator(labels: seq<string>)
    requires |labels| >= 2
    ensures Find(Join(labels), SEPARATOR)
  {
    var init := labels[..|labels| - 1];
    var r := Join(labels);
    var rest := Join(init);
    assert r == rest + SEPARATOR + labels[|labels| - 1];
    assert OccursAt(r, SEPARATOR, |rest|) by {
      assert r[|rest|..|rest| + |SEPARATOR|] == SEPARATOR;
    }
  }

  /** An occurrence survives appending more text. */
  lemma OccursInLonger(s: string, t: string, k: string, i: nat)
    requires OccursAt(s, k, i)
    ensures OccursAt(s + t, k, i)
  {
    assert (s + t)[i..i + |k|] == s[i..i + |k|];
  }

  /** Every label occurs in the joined message. */
  lemma {:induction false} JoinContains(labels: seq<string>, i: nat)
    requires i < |labels|
    ensures Find(Join(labels), labels[i])
    decreases |labels|
  {
    var r := Join(labels);
    if |labels| > 1 {
      var init := labels[..|labels| - 1];
      var rest := Join(init);
      var last := labels[|labels| - 1];
      assert r == rest + (SEPARATOR + last);
      if i == |labels| - 1 {
        assert r[|rest| + |SEPARATOR|..|r|] == last;
        assert OccursAt(r, last, |rest| + |SEPARATOR|);
      } else {
        JoinContains(init, i);
        assert init[i] == labels[i];
        var j :| OccursAt(rest, labels[i], j);
        OccursInLonger(rest, SEPARATOR + last, labels[i], j);
      }
    } else {
      assert OccursAt(r, labels[i], 0);
    }
  }

  /** No space in `s` is directly followed by the letter o. */
  predicate NoSpaceO(s: string) {
    forall i :: 0 <= i < |s| - 1 ==> s[i] != ' ' || s[i + 1] != 'o'
  }

  /** Every occurrence of the separator starts with a space followed by an o. */
  lemma SeparatorStart(s: string)
    ensures forall i: nat :: OccursAt(s, SEPARATOR, i) ==> s[i] == ' ' && s[i + 1] == 'o'
  {
    forall i: nat | OccursAt(s, SEPARATOR, i) ensures s[i] == ' ' && s[i + 1] == 'o' {
      assert s[i..i + |SEPARATOR|][0] == s[i] && s[i..i + |SEPARATOR|][1] == s[i + 1];
    }
  }

  /** A string in which no space is followed by an o does not contain the separator. */
  lemma NoSeparator(s: string)
    requires NoSpaceO(s)
    ensures !Find(s, SEPARATOR)
  {
    SeparatorStart(s);
    forall i: nat | i + 1 < |s| ensures !OccursAt(s, SEPARATOR, i) {
      assert s[i] != ' ' || s[i + 1] != 'o';
    }
  }

  /** A string in which the keyword's first character never appears does not contain the keyword. */
  lemma NotFoundWithoutFirst(s: string, k: string)
    requires |k| > 0
    requires forall i :: 0 <= i < |s| ==> s[i] != k[0]
    ensures !Find(s, k)
  {
    forall i: nat | i + |k| <= |s| ensures !OccursAt(s, k, i) {
      assert s[i..i + |k|][0] == s[i];
    }
  }
}
