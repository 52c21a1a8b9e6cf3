/**
 * Choosing the text to parse from the model's reply: the interior of the
 * first fenced block tagged json (the regular expression
 * /```json([\s\S]*?)```/i), trimmed, or else the whole reply, trimmed.
 */
module Extract {
  import opened Wrappers

  /**
   * The characters `String.prototype.trim` strips (ECMAScript WhiteSpace and
   * LineTerminator): tab, line feed, vertical tab, form feed, carriage return,
   * space, no-break space, the byte-order mark, the Unicode space separators
   * (U+1680, U+2000 to U+200A, U+202F, U+205F, U+3000) and the line and
   * paragraph separators (U+2028, U+2029).
   */
  const Whitespace: set<char> := {
    '\t', '\n', '\U{000B}', '\U{000C}', '\r', ' ', '\U{00A0}', '\U{FEFF}', '\U{1680}',
    '\U{2000}', '\U{2001}', '\U{2002}', '\U{2003}', '\U{2004}', '\U{2005}',
    '\U{2006}', '\U{2007}', '\U{2008}', '\U{2009}', '\U{200A}',
    '\U{2028}', '\U{2029}', '\U{202F}', '\U{205F}', '\U{3000}'
  }

  predicate IsWhitespace(c: char)
  {
    c in Whitespace
  }

  /** The index of the first character at or after `i` that is not whitespace, or |s|. */
  function SkipLeading(s: string, i: nat): (j: nat)
    requires i <= |s|
    ensures i <= j <= |s|
    ensures forall k :: i <= k < j ==> IsWhitespace(s[k])
    ensures j < |s| ==> !IsWhitespace(s[j])
    decreases |s| - i
  {
    if i < |s| && IsWhitespace(s[i]) then SkipLeading(s, i + 1) else i
  }

  /** The index just past the last character before `j`, and not before `lo`, that is not whitespace, or `lo`. */
  function SkipTrailing(s: string, lo: nat, j: nat): (e: nat)
    requires lo <= j <= |s|
    ensures lo <= e <= j
    ensures forall k :: e <= k < j ==> IsWhitespace(s[k])
    ensures lo < e ==> !IsWhitespace(s[e - 1])
    decreases j
  {
    if lo < j && IsWhitespace(s[j - 1]) then SkipTrailing(s, lo, j - 1) else j
  }

  /**
   * `s.trim()`: the result is a stretch of the text, everything cut off on
   * either side is whitespace, and the result neither starts nor ends with
   * whitespace.
   */
  function Trim(s: string): (r: string)
    ensures SkipLeading(s, 0) + |r| <= |s|
    ensures r == s[SkipLeading(s, 0)..SkipLeading(s, 0) + |r|]
    ensures forall k :: 0 <= k < SkipLeading(s, 0) ==> IsWhitespace(s[k])
    ensures forall k :: SkipLeading(s, 0) + |r| <= k < |s| ==> IsWhitespace(s[k])
    ensures |r| > 0 ==> !IsWhitespace(r[0]) && !IsWhitespace(r[|r| - 1])
  {
    var i := SkipLeading(s, 0);
    s[i..SkipTrailing(s, i, |s|)]
  }

  /** Trimming twice is trimming once. */
  lemma {:induction false} TrimIdempotent(s: string)
    ensures Trim(Trim(s)) == Trim(s)
  {
    var r := Trim(s);
    assert SkipLeading(r, 0) == 0;
    assert SkipTrailing(r, 0, |r|) == |r|;
  }

  /** ```json, with j, s, o, n in either case (the `i` flag), starts at index i. */
  predicate OpensAt(s: string, i: nat)
  {
    && i + 7 <= |s|
    && s[i] == '`' && s[i + 1] == '`' && s[i + 2] == '`'
    && (s[i + 3] == 'j' || s[i + 3] == 'J')
    && (s[i + 4] == 's' || s[i + 4] == 'S')
    && (s[i + 5] == 'o' || s[i + 5] == 'O')
    && (s[i + 6] == 'n' || s[i + 6] == 'N')
  }

  /** ``` starts at index j. */
  predicate ClosesAt(s: string, j: nat)
  {
    j + 3 <= |s| && s[j] == '`' && s[j + 1] == '`' && s[j + 2] == '`'
  }

  /** The lazy `([\s\S]*?)```: the first closing fence at or after `from`, or -1. */
  function FindClose(s: string, from: nat): (j: int)
    ensures j == -1 || (from <= j && ClosesAt(s, j))
    ensures j == -1 ==> forall k :: from <= k ==> !ClosesAt(s, k)
    ensures j != -1 ==> forall k :: from <= k < j ==> !ClosesAt(s, k)
    decreases |s| - from
  {
    if from + 3 > |s| then -1
    else if ClosesAt(s, from) then from
    else FindClose(s, from + 1)
  }

  /** The regular expression matches starting at index i. */
  predicate FenceAt(s: string, i: nat)
  {
    OpensAt(s, i) && FindClose(s, i + 7) != -1
  }

  /** A match: the interior runs from `open + 7` up to the closing fence at `close`. */
  datatype Fence = Fence(open: nat, close: nat)

  /** `s.match(...)` searching from `from`: the leftmost start where the expression matches. */
  function FindFence(s: string, from: nat): (f: Option<Fence>)
    ensures f.Some? ==> from <= f.value.open && FenceAt(s, f.value.open)
                        && f.value.close == FindClose(s, f.value.open + 7)
    ensures f.Some? ==> forall i :: from <= i < f.value.open ==> !FenceAt(s, i)
    ensures f.None? ==> forall i :: from <= i ==> !FenceAt(s, i)
    decreases |s| - from
  {
    if from + 7 > |s| then None
    else if FenceAt(s, from) then Some(Fence(from, FindClose(s, from + 7)))
    else FindFence(s, from + 1)
  }

  /**
   * The leftmost "```json" decides: when the expression matches at all, it
   * matches at the first opening fence of the text, because a closing fence
   * after a later opening is also after the first one.
   */
  lemma {:induction false} FirstOpeningWins(s: string, i: nat)
    requires FindFence(s, 0).Some?
    requires OpensAt(s, i)
    ensures FindFence(s, 0).value.open <= i
  {
    var f := FindFence(s, 0).value;
    if i < f.open {
      var j := FindClose(s, f.open + 7);
      assert ClosesAt(s, j) && i + 7 <= j;
      assert FindClose(s, i + 7) != -1;
      assert FenceAt(s, i);
    }
  }

  /** `match ? match[1].trim() : text.trim()` */
  function JsonText(text: string): (r: string)
    ensures FindFence(text, 0).None? ==> r == Trim(text)
    ensures FindFence(text, 0).Some? ==>
      var f := FindFence(text, 0).value;
      f.open + 7 <= f.close <= |text| && r == Trim(text[f.open + 7..f.close])
  {
    match FindFence(text, 0)
    case Some(f) => Trim(text[f.open + 7..f.close])
    case None => Trim(text)
  }

  /** A fenced block tagged JSON (in capitals) gives its trimmed interior. */
  lemma FencedExample()
    ensures JsonText("```JSON\n[]\n```") == "[]"
  {
    var s := "```JSON\n[]\n```";
    FencedExampleMatch();
    assert s[7..11] == "\n[]\n";
    FencedExampleTrim();
  }

  /** The expression matches at index 0 and closes at index 11. */
  lemma FencedExampleMatch()
    ensures FindFence("```JSON\n[]\n```", 0) == Some(Fence(0, 11))
  {
    var s := "```JSON\n[]\n```";
    assert ClosesAt(s, 11);
    assert !ClosesAt(s, 7) && !ClosesAt(s, 8) && !ClosesAt(s, 9) && !ClosesAt(s, 10);
    assert FindClose(s, 7) == 11;
    assert OpensAt(s, 0);
  }

  /** Trimming the block's interior leaves the bare array text. */
  lemma FencedExampleTrim()
    ensures Trim("\n[]\n") == "[]"
  {
    var s := "\n[]\n";
    assert !IsWhitespace('[') && !IsWhitespace(']');
    assert SkipLeading(s, 1) == 1;
    assert SkipTrailing(s, 1, 3) == 3;
    assert s[1..3] == "[]";
  }

  /** Without a fence the whole reply, trimmed, is parsed. */
  lemma BareExample()
    ensures JsonText(" {}") == "{}"
  {
    var s := " {}";
    assert FindFence(s, 0).None?;
    assert !IsWhitespace('{') && !IsWhitespace('}');
    assert SkipLeading(s, 1) == 1;
    assert s[1..3] == "{}";
  }
}
