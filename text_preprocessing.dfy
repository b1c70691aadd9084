/**
 * The text cleaner of the analytics engine, applied to every ticket
 * description before clustering: a value that is not text (a missing cell,
 * a number) becomes the empty string; otherwise every character that is
 * neither a word character nor whitespace is removed and the rest is
 * lower-cased.
 *
 * Characters are classified as Python does on the ASCII range; the model is
 * stated for ASCII text.
 */
module TextPreprocessing {
  import opened Ascii

  /** A cell of the description column: text, or any other value. */
  datatype Cell = Text(s: string) | NonText

  /** The characters the punctuation filter keeps: `\w` and `\s`. */
  predicate Kept(c: char)
    ensures Kept(c) ==> IsAsciiChar(c)
    ensures Kept(c) <==> IsWordChar(ToLower(c)) || IsSpace(c)
  {
    IsWordChar(c) || IsSpace(c)
  }

  /** The substitution that deletes every character outside `[\w\s]`. */
  function RemovePunctuation(s: string): (r: string)
    ensures |r| <= |s|
    ensures forall i :: 0 <= i < |r| ==> Kept(r[i])
    decreases |s|
  {
    if s == [] then []
    else (if Kept(s[0]) then [s[0]] else []) + RemovePunctuation(s[1..])
  }

  /** The cleaner itself. */
  function PreprocessText(v: Cell): (r: string)
    requires v.Text? ==> IsAsciiString(v.s)
    ensures v.NonText? ==> r == ""
    ensures v.Text? ==> |r| <= |v.s|
    ensures forall i :: 0 <= i < |r| ==> Kept(r[i]) && !IsUpper(r[i])
  {
    match v
    case NonText => ""
    case Text(s) => Lower(RemovePunctuation(s))
  }

  /** Removing punctuation works character by character: it distributes over concatenation. */
  lemma {:induction false} RemovePunctuationAppend(s: string, t: string)
    ensures RemovePunctuation(s + t) == RemovePunctuation(s) + RemovePunctuation(t)
    decreases |s|
  {
    if s == [] {
      assert s + t == t;
    } else {
      assert (s + t)[0] == s[0] && (s + t)[1..] == s[1..] + t;
      RemovePunctuationAppend(s[1..], t);
    }
  }

  /**
   * Every letter, digit, underscore and whitespace character of the input
   * survives, as often as it occurs; nothing else does.
   */
  lemma {:induction false} RemovePunctuationCounts(s: string, c: char)
    ensures multiset(RemovePunctuation(s))[c] == if Kept(c) then multiset(s)[c] else 0
    decreases |s|
  {
    if s != [] {
      RemovePunctuationCounts(s[1..], c);
      assert s == [s[0]] + s[1..];
    }
  }

  /** Lower-casing also works character by character. */
  lemma LowerAppend(s: string, t: string)
    ensures Lower(s + t) == Lower(s) + Lower(t)
  {
    var l, r := Lower(s + t), Lower(s) + Lower(t);
    forall i | 0 <= i < |l| ensures l[i] == r[i] {
      if i < |s| {
        assert (s + t)[i] == s[i];
      } else {
        assert (s + t)[i] == t[i - |s|];
      }
    }
  }

  /**
   * The cleaner is determined by what it does to one character: it keeps a
   * word or whitespace character, lower-cased, and drops any other; and it
   * preserves order, cleaning a concatenation piece by piece.
   */
  lemma PreprocessTextAppend(s: string, t: string)
    requires IsAsciiString(s) && IsAsciiString(t)
    ensures IsAsciiString(s + t)
    ensures PreprocessText(Text(s + t)) == PreprocessText(Text(s)) + PreprocessText(Text(t))
  {
    assert forall i :: 0 <= i < |s + t| ==> (s + t)[i] == if i < |s| then s[i] else t[i - |s|];
    RemovePunctuationAppend(s, t);
    LowerAppend(RemovePunctuation(s), RemovePunctuation(t));
  }

  /** The cleaner on a single character. */
  lemma PreprocessTextChar(c: char)
    requires IsAsciiChar(c)
    ensures PreprocessText(Text([c])) == if Kept(c) then [ToLower(c)] else []
  {
    assert RemovePunctuation([c]) == (if Kept(c) then [c] else []) + RemovePunctuation([]);
  }

  /** Text that holds only kept characters passes the punctuation filter unchanged. */
  lemma {:induction false} RemovePunctuationOfKept(s: string)
    requires forall i :: 0 <= i < |s| ==> Kept(s[i])
    ensures RemovePunctuation(s) == s
    decreases |s|
  {
    if s != [] {
      RemovePunctuationOfKept(s[1..]);
      assert s == [s[0]] + s[1..];
    }
  }

  /** Text without upper-case letters is left unchanged by lower-casing. */
  lemma LowerOfLower(s: string)
    requires forall i :: 0 <= i < |s| ==> !IsUpper(s[i])
    ensures Lower(s) == s
  {
  }

  /** Cleaning already cleaned text changes nothing. */
  lemma PreprocessTextIdempotent(s: string)
    requires IsAsciiString(s)
    ensures IsAsciiString(PreprocessText(Text(s)))
    ensures PreprocessText(Text(PreprocessText(Text(s)))) == PreprocessText(Text(s))
  {
    var r := PreprocessText(Text(s));
    RemovePunctuationOfKept(r);
    LowerOfLower(r);
  }
}
