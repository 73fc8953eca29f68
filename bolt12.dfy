/**
 * The offer-string recognizer of the BOLT12 helper object: `findOffer` trims
 * its input and tests it against the case-insensitive pattern `^lno.*` (flag `i`)
 * (`lno` is the human-readable prefix of a BOLT12 offer), and `isOffer` is
 * meant to turn that into a boolean.
 */
module Bolt12 {

  /** The JavaScript values `findOffer` can produce: a string, `undefined` or `null`. */
  datatype JsValue = Undefined | Null | Str(text: string)

  /** JavaScript truthiness of such a value, as `Boolean(v)` computes it. */
  predicate Truthy(v: JsValue)
  {
    v.Str? && v.text != ""
  }

  // ---------------------------------------------------------------------------
  // String.prototype.trim

  /**
   * The code points `String.prototype.trim` strips: ECMAScript's WhiteSpace
   * (TAB, VT, FF, ZWNBSP and the space separators) and LineTerminator
   * (LF, CR, LS, PS).
   */
  predicate IsTrimmable(c: char)
  {
    c == '\t' || c == '\n' || c == '\U{B}' || c == '\U{C}' || c == '\r' || c == ' '
    || c == '\U{A0}' || c == '\U{1680}' || ('\U{2000}' <= c <= '\U{200A}')
    || c == '\U{2028}' || c == '\U{2029}' || c == '\U{202F}' || c == '\U{205F}'
    || c == '\U{3000}' || c == '\U{FEFF}'
  }

  predicate AllTrimmable(s: string)
  {
    forall i :: 0 <= i < |s| ==> IsTrimmable(s[i])
  }

  /** No trimmable code point at either end. */
  predicate IsTrimmed(s: string)
  {
    s == [] || (!IsTrimmable(s[0]) && !IsTrimmable(s[|s| - 1]))
  }

  /** First index at or after `from` that holds a code point `trim` keeps, or the end. */
  function LeadEnd(s: string, from: nat): (k: nat)
    requires from <= |s|
    ensures from <= k <= |s|
    ensures forall i :: from <= i < k ==> IsTrimmable(s[i])
    ensures k == |s| || !IsTrimmable(s[k])
    decreases |s| - from
  {
    if from == |s| || !IsTrimmable(s[from]) then from else LeadEnd(s, from + 1)
  }

  /** Going down from `to` but not below `lo`: the end of the last kept code point. */
  function TailStart(s: string, lo: nat, hi: nat): (k: nat)
    requires lo <= hi <= |s|
    ensures lo <= k <= hi
    ensures forall i :: k <= i < hi ==> IsTrimmable(s[i])
    ensures k == lo || !IsTrimmable(s[k - 1])
    decreases hi - lo
  {
    if hi == lo || !IsTrimmable(s[hi - 1]) then hi else TailStart(s, lo, hi - 1)
  }

  /** `text.trim()`: the text between the leading and the trailing trimmable runs. */
  function Trim(s: string): (r: string)
    ensures IsTrimmed(r) && |r| <= |s|
  {
    var i := LeadEnd(s, 0);
    s[i..TailStart(s, i, |s|)]
  }

  /** The input is the trimmed text with trimmable padding on each side. */
  lemma TrimSlice(s: string) returns (lead: string, tail: string)
    ensures s == lead + Trim(s) + tail
    ensures AllTrimmable(lead) && AllTrimmable(tail)
  {
    var i := LeadEnd(s, 0);
    var j := TailStart(s, i, |s|);
    lead, tail := s[..i], s[j..];
    assert s == s[..i] + s[i..j] + s[j..];
  }

  lemma {:induction false} LeadEndAt(s: string, from: nat, k: nat)
    requires from <= k <= |s|
    requires forall i :: from <= i < k ==> IsTrimmable(s[i])
    requires k == |s| || !IsTrimmable(s[k])
    ensures LeadEnd(s, from) == k
    decreases k - from
  {
    if from < k {
      LeadEndAt(s, from + 1, k);
    }
  }

  lemma {:induction false} TailStartAt(s: string, lo: nat, hi: nat, k: nat)
    requires lo <= k <= hi <= |s|
    requires forall i :: k <= i < hi ==> IsTrimmable(s[i])
    requires k == lo || !IsTrimmable(s[k - 1])
    ensures TailStart(s, lo, hi) == k
    decreases hi - k
  {
    if k < hi {
      TailStartAt(s, lo, hi - 1, k);
    }
  }

  /**
   * Trim is characterised by its result alone: whatever trimmable padding
   * surrounds a trimmed core, trimming gives back exactly that core.
   */
  lemma TrimUnique(pre: string, core: string, post: string)
    requires AllTrimmable(pre) && AllTrimmable(post) && IsTrimmed(core)
    ensures Trim(pre + core + post) == core
  {
    var s := pre + core + post;
    var i, j := |pre|, |pre| + |core|;
    assert forall k :: 0 <= k < i ==> s[k] == pre[k];
    assert forall k :: j <= k < |s| ==> s[k] == post[k - j];
    if core == [] {
      LeadEndAt(s, 0, |s|);
      TailStartAt(s, |s|, |s|, |s|);
      assert Trim(s) == s[|s|..|s|];
    } else {
      assert s[i] == core[0] && s[j - 1] == core[|core| - 1];
      LeadEndAt(s, 0, i);
      TailStartAt(s, i, |s|, j);
      assert s[i..j] == core;
    }
  }

  /** Trimming twice is trimming once. */
  lemma TrimIdempotent(s: string)
    ensures Trim(Trim(s)) == Trim(s)
  {
    var r := Trim(s);
    assert [] + r + [] == r;
    TrimUnique([], r, []);
  }

  lemma AllTrimmableConcat(a: string, b: string)
    requires AllTrimmable(a) && AllTrimmable(b)
    ensures AllTrimmable(a + b)
  {
    forall k | 0 <= k < |a + b| ensures IsTrimmable((a + b)[k]) {
      if k < |a| { assert (a + b)[k] == a[k]; } else { assert (a + b)[k] == b[k - |a|]; }
    }
  }

  /** Regrouping the padding around a trimmed core. */
  lemma Regroup(pre: string, s: string, post: string, lead: string, r: string, tail: string)
    requires s == lead + r + tail
    ensures pre + s + post == (pre + lead) + r + (tail + post)
  {
  }

  /** Padding a text with whitespace on either side does not change its trimmed form. */
  lemma TrimIgnoresPadding(pre: string, s: string, post: string)
    requires AllTrimmable(pre) && AllTrimmable(post)
    ensures Trim(pre + s + post) == Trim(s)
  {
    var lead, tail := TrimSlice(s);
    Regroup(pre, s, post, lead, Trim(s), tail);
    AllTrimmableConcat(pre, lead);
    AllTrimmableConcat(tail, post);
    TrimUnique(pre + lead, Trim(s), tail + post);
  }

  // ---------------------------------------------------------------------------
  // The pattern ^lno.* with flag i

  /** The code points at which `.` stops (it matches anything else). */
  predicate IsLineTerminator(c: char)
  {
    c == '\n' || c == '\r' || c == '\U{2028}' || c == '\U{2029}'
  }

  /**
   * Case folding of the `i` flag without `u`, restricted to ASCII. The flag
   * compares code points by their upper-case forms, and non-ASCII letters
   * fold too (`é` to `É`), but no non-ASCII code point folds onto an ASCII
   * one. The result is only compared with `L`, `N` and `O`, and for those
   * three letters folding the ASCII letters alone gives the same answer.
   */
  function Canonicalize(c: char): char
  {
    if 'a' <= c <= 'z' then (c as int - 32) as char else c
  }

  /** The literal part of the pattern. */
  const OfferPrefix: string := "lno"

  /** Lower-cases an ASCII letter and leaves every other code point alone. */
  function AsciiLower(c: char): char
  {
    if 'A' <= c <= 'Z' then (c as int + 32) as char else c
  }

  /** The text begins with `lno`, ignoring the case of those three letters. */
  predicate HasOfferPrefix(t: string)
  {
    |t| >= 3 && forall i :: 0 <= i < 3 ==> AsciiLower(t[i]) == OfferPrefix[i]
  }

  /** First index at or after `from` where the greedy `.*` stops. */
  function DotStarEnd(t: string, from: nat): (k: nat)
    requires from <= |t|
    ensures from <= k <= |t|
    ensures forall i :: from <= i < k ==> !IsLineTerminator(t[i])
    ensures k == |t| || IsLineTerminator(t[k])
    decreases |t| - from
  {
    if from == |t| || IsLineTerminator(t[from]) then from else DotStarEnd(t, from + 1)
  }

  /**
   * The result of `t.match` of that pattern: `null`, or the match array. Element 0
   * is the matched text; the pattern has no capture group, so there is no
   * element 1.
   */
  datatype RegexMatch = NoMatch | Matched(groups: seq<JsValue>)

  function MatchOfferPattern(t: string): (m: RegexMatch)
    ensures m.Matched? <==> HasOfferPrefix(t)
    ensures m.Matched? ==> |m.groups| == 1 && m.groups[0].Str?
    ensures m.Matched? ==>
              var w := m.groups[0].text;
              3 <= |w| <= |t| && w == t[..|w|]
              && (forall i :: 0 <= i < |w| ==> !IsLineTerminator(w[i]))
              && (|w| == |t| || IsLineTerminator(t[|w|]))
  {
    if |t| >= 3 && Canonicalize(t[0]) == 'L' && Canonicalize(t[1]) == 'N' && Canonicalize(t[2]) == 'O'
       && !IsLineTerminator(t[0]) && !IsLineTerminator(t[1]) && !IsLineTerminator(t[2])
    then
      Matched([Str(t[..DotStarEnd(t, 3)])])
    else
      NoMatch
  }

  /** Array indexing in JavaScript: an index past the end reads `undefined`. */
  function ElementAt(a: seq<JsValue>, i: nat): (v: JsValue)
    ensures i >= |a| ==> v == Undefined
    ensures i < |a| ==> v == a[i]
  {
    if i < |a| then a[i] else Undefined
  }

  // ---------------------------------------------------------------------------
  // findOffer and isOffer, as written

  /**
   * `findOffer(text)`: on a match it returns `match[1]`, which does not exist,
   * so a recognised offer gives `undefined` and anything else gives `null`.
   * Neither result is the offer text.
   */
  function FindOffer(text: string): (r: JsValue)
    ensures r == Undefined <==> HasOfferPrefix(Trim(text))
    ensures r == Null <==> !HasOfferPrefix(Trim(text))
    ensures !r.Str?
  {
    var m := MatchOfferPattern(Trim(text));
    if m.Matched? then ElementAt(m.groups, 1) else Null
  }

  /** Whitespace around the text never changes the outcome. */
  lemma FindOfferIgnoresPadding(pre: string, text: string, post: string)
    requires AllTrimmable(pre) && AllTrimmable(post)
    ensures FindOffer(pre + text + post) == FindOffer(text)
    ensures FindOffer(Trim(text)) == FindOffer(text)
  {
    TrimIgnoresPadding(pre, text, post);
    TrimIdempotent(text);
  }

  /** Trimming a text that begins with a trimmed, non-empty piece keeps that piece at the front. */
  lemma TrimKeepsStart(p: string, rest: string)
    requires p != [] && IsTrimmed(p)
    ensures |Trim(p + rest)| >= |p| && Trim(p + rest)[..|p|] == p
  {
    var s := p + rest;
    assert s[0] == p[0] && s[|p| - 1] == p[|p| - 1];
    LeadEndAt(s, 0, 0);
    var j := TailStart(s, 0, |s|);
    assert Trim(s) == s[..j];
    assert !IsTrimmable(s[|p| - 1]);
    assert s[..j][..|p|] == p;
  }

  /** Only the first three letters matter, in any case: anything after them, including nothing, is accepted. */
  lemma FindOfferAcceptsAnyCasedPrefix(p: string, rest: string)
    requires |p| == 3 && HasOfferPrefix(p)
    ensures FindOffer(p + rest) == Undefined
  {
    assert AsciiLower(p[0]) == 'l' && AsciiLower(p[2]) == 'o';
    TrimKeepsStart(p, rest);
    var t := Trim(p + rest);
    assert t[..3] == p;
    assert t[0] == p[0] && t[1] == p[1] && t[2] == p[2];
  }

  /** The three spellings named by the offer convention are recognised alike. */
  lemma FindOfferCaseInsensitive(rest: string)
    ensures FindOffer("lno" + rest) == FindOffer("LNO" + rest) == FindOffer("Lno" + rest) == Undefined
  {
    FindOfferAcceptsAnyCasedPrefix("lno", rest);
    FindOfferAcceptsAnyCasedPrefix("LNO", rest);
    FindOfferAcceptsAnyCasedPrefix("Lno", rest);
  }

  /** How evaluating `isOffer`'s body ends: with a value, or with a ReferenceError for a name. */
  datatype Completion = Normal(value: bool) | ThrowsReferenceError(name: string)

  /**
   * The names in scope at the top level of the module: the values imported
   * on its first lines and the `bolt12` object. `DecodedOffer` is imported as
   * a type only and has no run-time binding. `findOffer` is a property of the
   * object literal, not a name in scope.
   */
  const ModuleBindings: set<string> := {"axios", "sha256", "Hex", "parsePaymentRequest", "bolt12"}

  /** Inside `isOffer` its parameter `offer` is in scope as well. */
  const IsOfferScope: set<string> := ModuleBindings + {"offer"}

  /**
   * `Boolean(findOffer(Offer))` evaluated in `scope`, where the argument is
   * the string `offer`: the callee is resolved first, then the argument, and
   * an unbound name throws a ReferenceError.
   */
  function EvalIsOfferBody(scope: set<string>, offer: string): (c: Completion)
    ensures "findOffer" !in scope ==> c == ThrowsReferenceError("findOffer")
    ensures "findOffer" in scope && "Offer" !in scope ==> c == ThrowsReferenceError("Offer")
    ensures c.Normal? <==> "findOffer" in scope && "Offer" in scope
  {
    if "findOffer" !in scope then ThrowsReferenceError("findOffer")
    else if "Offer" !in scope then ThrowsReferenceError("Offer")
    else Normal(Truthy(FindOffer(offer)))
  }

  /**
   * What `isOffer` evaluates to as written: neither `findOffer` nor `Offer`
   * is bound where the call stands, so it throws a ReferenceError naming
   * `findOffer` whatever the argument.
   */
  function IsOfferAsWritten(offer: string): (c: Completion)
    ensures c == ThrowsReferenceError("findOffer")
  {
    EvalIsOfferBody(IsOfferScope, offer)
  }

  /**
   * Even with the names bound, `Boolean(findOffer(offer))` is false for every
   * input, since `findOffer` only returns `undefined` or `null`.
   */
  lemma IsOfferNeverTrueEvenIfBound(offer: string)
    ensures !Truthy(FindOffer(offer))
    ensures EvalIsOfferBody(IsOfferScope + {"findOffer", "Offer"}, offer) == Normal(false)
  {
  }

  /** `findOffer("lno1qsg")` recognises the offer yet returns `undefined`, not the text. */
  lemma FindOfferLosesText()
    ensures FindOffer("lno1qsg") == Undefined
    ensures FindOffer("lno1qsg") != Str("lno1qsg")
  {
    FindOfferAcceptsAnyCasedPrefix("lno", "1qsg");
    assert "lno" + "1qsg" == "lno1qsg";
  }

  // ---------------------------------------------------------------------------
  // findOffer and isOffer, as evidently intended

  /**
   * `findOffer` returning `match[0]`: the offer text from the trimmed input
   * up to the first line terminator, or `null`.
   */
  function RecognizeOffer(text: string): (r: JsValue)
    ensures r.Str? <==> HasOfferPrefix(Trim(text))
    ensures !r.Str? ==> r == Null
    ensures r.Str? ==>
              var t := Trim(text);
              HasOfferPrefix(r.text) && |r.text| <= |t| && r.text == t[..|r.text|]
              && (forall i :: 0 <= i < |r.text| ==> !IsLineTerminator(r.text[i]))
              && (|r.text| == |t| || IsLineTerminator(t[|r.text|]))
  {
    var m := MatchOfferPattern(Trim(text));
    if m.Matched? then ElementAt(m.groups, 0) else Null
  }

  /** A trimmed offer on one line is returned whole. */
  lemma RecognizeOfferReturnsWholeLine(text: string)
    requires HasOfferPrefix(Trim(text))
    requires forall i :: 0 <= i < |Trim(text)| ==> !IsLineTerminator(Trim(text)[i])
    ensures RecognizeOffer(text) == Str(Trim(text))
  {
  }

  /** `isOffer` with its names bound to `findOffer` as intended. */
  function IsOffer(offer: string): (b: bool)
    ensures b <==> HasOfferPrefix(Trim(offer))
  {
    Truthy(RecognizeOffer(offer))
  }
}
