/** The target text: the first ten sentences of an ordering of the sentence
    pool, joined with single spaces (generateText). The shuffle that produces
    the ordering is random and is not modelled; the ordering is a parameter. */
module TextGen {

  /** How many sentences one target text holds. */
  const SentencesPerText: nat := 10

  /** Array.prototype.join: the parts with sep between consecutive ones. */
  function Join(parts: seq<string>, sep: string): (r: string)
    ensures |r| >= TotalLength(parts)
  {
    if |parts| == 0 then ""
    else if |parts| == 1 then parts[0]
    else Join(parts[..|parts| - 1], sep) + sep + parts[|parts| - 1]
  }

  /** Sum of the lengths of the parts. */
  function TotalLength(parts: seq<string>): nat {
    if |parts| == 0 then 0 else TotalLength(parts[..|parts| - 1]) + |parts[|parts| - 1]|
  }

  /** Joined with single spaces, the string holds every part once and one
      space between each consecutive pair. */
  lemma {:induction false} JoinLength(parts: seq<string>)
    requires |parts| > 0
    ensures |Join(parts, " ")| == TotalLength(parts) + |parts| - 1
  {
    if |parts| > 1 {
      var init := parts[..|parts| - 1];
      JoinLength(init);
      assert Join(parts, " ") == Join(init, " ") + " " + parts[|parts| - 1];
    }
  }

  /** The joined string begins with the first part. */
  lemma {:induction false} JoinStartsWithFirst(parts: seq<string>, sep: string)
    requires |parts| > 0
    ensures parts[0] <= Join(parts, sep)
  {
    if |parts| > 1 {
      var init := parts[..|parts| - 1];
      JoinStartsWithFirst(init, sep);
      assert init[0] == parts[0];
      PrefixOfConcat(parts[0], Join(init, sep), sep + parts[|parts| - 1]);
    }
  }

  lemma PrefixOfConcat(a: string, b: string, c: string)
    requires a <= b
    ensures a <= b + c
  {
    assert (b + c)[..|a|] == b[..|a|];
  }

  /** Where part i begins in a join with single spaces: after the parts
      before it and one space behind each of them. */
  function Offset(parts: seq<string>, i: nat): nat
    requires i <= |parts|
  {
    TotalLength(parts[..i]) + i
  }

  /** The lengths of the first i parts never exceed the lengths of all. */
  lemma {:induction false} TotalLengthOfPrefix(parts: seq<string>, i: nat)
    requires i <= |parts|
    ensures TotalLength(parts[..i]) <= TotalLength(parts)
  {
    if i < |parts| {
      var init := parts[..|parts| - 1];
      TotalLengthOfPrefix(init, i);
      assert init[..i] == parts[..i];
    } else {
      assert parts[..i] == parts;
    }
  }

  /** In a join with single spaces, part i occupies the |parts[i]| characters
      from Offset(parts, i) on, and a space comes right before it unless it
      is the first part. */
  lemma {:induction false} JoinPlacesParts(parts: seq<string>, i: nat)
    requires i < |parts|
    ensures Offset(parts, i) + |parts[i]| <= |Join(parts, " ")|
    ensures Join(parts, " ")[Offset(parts, i)..Offset(parts, i) + |parts[i]|] == parts[i]
    ensures 0 < i ==> Join(parts, " ")[Offset(parts, i) - 1] == ' '
  {
    var n := |parts|;
    JoinLength(parts);
    if n == 1 {
      assert parts[..0] == [];
    } else {
      var init := parts[..n - 1];
      var j := Join(init, " ");
      JoinLength(init);
      assert Join(parts, " ") == j + " " + parts[n - 1];
      if i < n - 1 {
        JoinPlacesParts(init, i);
        assert init[..i] == parts[..i];
        TotalLengthOfPrefix(init, i + 1);
        assert init[..i + 1][..i] == init[..i];
        assert Offset(init, i) + |parts[i]| <= |j|;
        assert Join(parts, " ")[Offset(parts, i)..Offset(parts, i) + |parts[i]|]
               == j[Offset(init, i)..Offset(init, i) + |init[i]|];
      } else {
        assert parts[..i] == init;
        assert Offset(parts, i) == |j| + 1;
      }
    }
  }

  /** shuffled.slice(0, 10).join(" "), for a given ordering; whatever the
      ordering, the text starts with its first sentence. */
  function GenerateText(ordering: seq<string>): (r: string)
    ensures 0 < |ordering| ==> ordering[0] <= r
  {
    var k := if |ordering| < SentencesPerText then |ordering| else SentencesPerText;
    if k == 0 then "" else
      JoinStartsWithFirst(ordering[..k], " ");
      Join(ordering[..k], " ")
  }

  /** A text built from at least ten sentences is exactly the first ten with
      a single space between consecutive ones: its length is theirs plus
      nine, and sentence i sits at Offset(ordering, i) with a space before it
      unless it is the first. */
  lemma GenerateTextShape(ordering: seq<string>)
    requires |ordering| >= SentencesPerText
    ensures |GenerateText(ordering)| == TotalLength(ordering[..SentencesPerText]) + SentencesPerText - 1
    ensures forall i :: 0 <= i < SentencesPerText ==>
              && Offset(ordering, i) + |ordering[i]| <= |GenerateText(ordering)|
              && GenerateText(ordering)[Offset(ordering, i)..Offset(ordering, i) + |ordering[i]|] == ordering[i]
              && (0 < i ==> GenerateText(ordering)[Offset(ordering, i) - 1] == ' ')
  {
    var first := ordering[..SentencesPerText];
    JoinLength(first);
    forall i | 0 <= i < SentencesPerText
      ensures Offset(ordering, i) + |ordering[i]| <= |GenerateText(ordering)|
      ensures GenerateText(ordering)[Offset(ordering, i)..Offset(ordering, i) + |ordering[i]|] == ordering[i]
      ensures 0 < i ==> GenerateText(ordering)[Offset(ordering, i) - 1] == ' '
    {
      JoinPlacesParts(first, i);
      assert first[..i] == ordering[..i];
    }
  }
}
