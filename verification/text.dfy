/** The few string operations of Python's `str` that the agent uses, on ASCII case only. */
module Text {

  predicate IsUpper(c: char) { 'A' <= c <= 'Z' }

  predicate IsLower(c: char) { 'a' <= c <= 'z' }

  /** A cased character in the sense of `str.title`: an ASCII letter. */
  predicate IsLetter(c: char) { IsUpper(c) || IsLower(c) }

  function LowerChar(c: char): (d: char)
    ensures !IsUpper(d)
    ensures IsLetter(c) <==> IsLetter(d)
    ensures !IsUpper(c) ==> d == c
  {
    if IsUpper(c) then (c as int + 32) as char else c
  }

  function UpperChar(c: char): (d: char)
    ensures !IsLower(d)
    ensures IsLetter(c) <==> IsLetter(d)
    ensures !IsLower(c) ==> d == c
  {
    if IsLower(c) then (c as int - 32) as char else c
  }

  /** `str.lower()` */
  function Lower(s: string): (r: string)
    ensures |r| == |s|
    ensures forall i | 0 <= i < |s| :: r[i] == LowerChar(s[i])
  {
    if s == [] then [] else [LowerChar(s[0])] + Lower(s[1..])
  }

  /** `str.capitalize()`: first character upper case, the rest lower case. */
  function Capitalize(s: string): (r: string)
    ensures |r| == |s|
    ensures |s| > 0 ==> r[0] == UpperChar(s[0]) && r[1..] == Lower(s[1..])
  {
    if s == [] then [] else [UpperChar(s[0])] + Lower(s[1..])
  }

  /** `str.title()` from some position on: a letter is upper-cased when the character before it
      is not a letter, lower-cased otherwise. `afterLetter` says whether the previous character
      was one. */
  function TitleFrom(s: string, afterLetter: bool): (r: string)
    ensures |r| == |s|
    ensures forall i | 0 <= i < |s| ::
      r[i] == (if (if i == 0 then afterLetter else IsLetter(s[i - 1])) then LowerChar(s[i]) else UpperChar(s[i]))
  {
    if s == [] then []
    else
      var c := if afterLetter then LowerChar(s[0]) else UpperChar(s[0]);
      [c] + TitleFrom(s[1..], IsLetter(s[0]))
  }

  /** `str.title()` */
  function Title(s: string): (r: string)
    ensures |r| == |s|
    ensures forall i | 0 <= i < |s| ::
      r[i] == (if i > 0 && IsLetter(s[i - 1]) then LowerChar(s[i]) else UpperChar(s[i]))
  {
    TitleFrom(s, false)
  }

  /** `s.replace(a, b)` for single characters. */
  function ReplaceChar(s: string, a: char, b: char): (r: string)
    ensures |r| == |s|
    ensures forall i | 0 <= i < |s| :: r[i] == (if s[i] == a then b else s[i])
  {
    if s == [] then [] else [if s[0] == a then b else s[0]] + ReplaceChar(s[1..], a, b)
  }

  /** `p` occurs in `s` starting at index `k`. */
  predicate At(s: string, k: int, p: string) {
    0 <= k && k + |p| <= |s| && s[k..k + |p|] == p
  }

  /** An occurrence survives text added on either side, shifted by what was added in front. */
  lemma AtShift(x: string, s: string, z: string, k: int, p: string)
    requires At(s, k, p)
    ensures At(x + s + z, |x| + k, p)
  {
    var t := x + s + z;
    assert t[|x|..|x| + |s|] == s;
    assert t[|x| + k..|x| + k + |p|] == t[|x|..|x| + |s|][k..k + |p|];
  }

  /** `sep.join(parts)` */
  function Join(parts: seq<string>, sep: string): string
  {
    if |parts| == 0 then ""
    else if |parts| == 1 then parts[0]
    else parts[0] + sep + Join(parts[1..], sep)
  }

  /** Where `parts[i]` starts in `sep.join(parts)`: every earlier part and its separator. */
  function Offset(parts: seq<string>, sep: string, i: nat): nat
    requires i < |parts|
  {
    if i == 0 then 0 else |parts[0]| + |sep| + Offset(parts[1..], sep, i - 1)
  }

  /** Each part sits at its offset. */
  lemma {:induction false} JoinAt(parts: seq<string>, sep: string, i: nat)
    requires i < |parts|
    ensures At(Join(parts, sep), Offset(parts, sep, i), parts[i])
    decreases i
  {
    if |parts| == 1 {
      assert parts[0] == [] + parts[0] + [];
      AtShift([], parts[0], [], 0, parts[0]);
    } else if i == 0 {
      assert Join(parts, sep) == [] + parts[0] + (sep + Join(parts[1..], sep));
      assert At(parts[0], 0, parts[0]) by { assert parts[0][0..|parts[0]|] == parts[0]; }
      AtShift([], parts[0], sep + Join(parts[1..], sep), 0, parts[0]);
    } else {
      JoinAt(parts[1..], sep, i - 1);
      assert Join(parts, sep) == (parts[0] + sep) + Join(parts[1..], sep) + [];
      AtShift(parts[0] + sep, Join(parts[1..], sep), [], Offset(parts[1..], sep, i - 1), parts[i]);
    }
  }

  /** A separator follows every part but the last, and the next part starts right after it. */
  lemma {:induction false} JoinSepAt(parts: seq<string>, sep: string, i: nat)
    requires i + 1 < |parts|
    ensures Offset(parts, sep, i + 1) == Offset(parts, sep, i) + |parts[i]| + |sep|
    ensures At(Join(parts, sep), Offset(parts, sep, i) + |parts[i]|, sep)
    decreases i
  {
    if i == 0 {
      assert Join(parts, sep) == parts[0] + sep + Join(parts[1..], sep) + [];
      assert At(sep, 0, sep) by { assert sep[0..|sep|] == sep; }
      AtShift(parts[0], sep, Join(parts[1..], sep), 0, sep);
    } else {
      JoinSepAt(parts[1..], sep, i - 1);
      assert Join(parts, sep) == (parts[0] + sep) + Join(parts[1..], sep) + [];
      AtShift(parts[0] + sep, Join(parts[1..], sep), [], Offset(parts[1..], sep, i - 1) + |parts[i]|, sep);
    }
  }

  /** The joined text ends with the last part. */
  lemma {:induction false} JoinLength(parts: seq<string>, sep: string)
    requires parts != []
    ensures |Join(parts, sep)| == Offset(parts, sep, |parts| - 1) + |parts[|parts| - 1]|
    decreases |parts|
  {
    if |parts| > 1 {
      JoinLength(parts[1..], sep);
    }
  }

  /** `sep.join(parts)` laid out: each part at its offset, a separator between neighbours, and
      nothing after the last part, which pins the text down completely. */
  lemma JoinLayout(parts: seq<string>, sep: string)
    ensures parts == [] ==> Join(parts, sep) == ""
    ensures parts != [] ==> |Join(parts, sep)| == Offset(parts, sep, |parts| - 1) + |parts[|parts| - 1]|
    ensures forall i | 0 <= i < |parts| :: At(Join(parts, sep), Offset(parts, sep, i), parts[i])
    ensures forall i | 0 <= i < |parts| - 1 ::
      Offset(parts, sep, i + 1) == Offset(parts, sep, i) + |parts[i]| + |sep|
      && At(Join(parts, sep), Offset(parts, sep, i) + |parts[i]|, sep)
  {
    if parts != [] {
      JoinLength(parts, sep);
    }
    forall i | 0 <= i < |parts| ensures At(Join(parts, sep), Offset(parts, sep, i), parts[i]) {
      JoinAt(parts, sep, i);
    }
    forall i | 0 <= i < |parts| - 1
      ensures Offset(parts, sep, i + 1) == Offset(parts, sep, i) + |parts[i]| + |sep|
      ensures At(Join(parts, sep), Offset(parts, sep, i) + |parts[i]|, sep)
    {
      JoinSepAt(parts, sep, i);
    }
  }

  /** Every part of `sep.join(parts)` sits in `s` at its offset counted from `start`. */
  predicate PartsAt(s: string, start: int, parts: seq<string>, sep: string) {
    forall i | 0 <= i < |parts| :: At(s, start + Offset(parts, sep, i), parts[i])
  }

  /** Every part of a joined text framed by `pre` and `post` sits at its offset after `pre`. */
  lemma JoinInside(pre: string, parts: seq<string>, sep: string, post: string)
    ensures PartsAt(pre + Join(parts, sep) + post, |pre|, parts, sep)
  {
    JoinLayout(parts, sep);
    forall i | 0 <= i < |parts| ensures At(pre + Join(parts, sep) + post, |pre| + Offset(parts, sep, i), parts[i]) {
      AtShift(pre, Join(parts, sep), post, Offset(parts, sep, i), parts[i]);
    }
  }

  /** A joined text after a prefix: the prefix comes first and every part follows at its offset. */
  lemma JoinAfter(pre: string, parts: seq<string>, sep: string)
    ensures pre <= pre + Join(parts, sep)
    ensures PartsAt(pre + Join(parts, sep), |pre|, parts, sep)
  {
    JoinInside(pre, parts, sep, "");
    assert pre + Join(parts, sep) + "" == pre + Join(parts, sep);
  }

  /** `s.count(c)` for a single character. */
  function Count(s: string, c: char): (n: nat)
    ensures n <= |s|
  {
    if s == [] then 0 else (if s[0] == c then 1 else 0) + Count(s[1..], c)
  }

  /** The count is the number of occurrences of `c`: its multiplicity in the multiset of `s`. */
  lemma {:induction false} CountOccurrences(s: string, c: char)
    ensures Count(s, c) == multiset(s)[c]
  {
    if s != [] {
      assert s == [s[0]] + s[1..];
      CountOccurrences(s[1..], c);
    }
  }

  lemma {:induction false} CountSplit(a: string, b: string, c: char)
    ensures Count(a + b, c) == Count(a, c) + Count(b, c)
  {
    if a != [] {
      assert (a + b)[1..] == a[1..] + b;
      CountSplit(a[1..], b, c);
    } else {
      assert a + b == b;
    }
  }

  predicate EndsWith(s: string, c: char) {
    |s| > 0 && s[|s| - 1] == c
  }

  /** `s.rstrip(c)` for a single character: drop every trailing `c`. */
  function RStrip(s: string, c: char): (r: string)
    ensures r <= s
    ensures !EndsWith(r, c)
    ensures forall i | |r| <= i < |s| :: s[i] == c
  {
    if EndsWith(s, c) then RStrip(s[..|s| - 1], c) else s
  }

  /** The characters `str.isspace()` accepts below U+0080. */
  predicate IsSpace(c: char) {
    c == ' ' || '\t' <= c <= '\r' || '\U{1c}' <= c <= '\U{1f}'
  }

  /** `s.lstrip()` */
  function LStrip(s: string): (r: string)
    ensures |r| <= |s|
  {
    if |s| > 0 && IsSpace(s[0]) then LStrip(s[1..]) else s
  }

  /** `s.rstrip()` */
  function RStripSpace(s: string): (r: string)
    ensures |r| <= |s|
  {
    if |s| > 0 && IsSpace(s[|s| - 1]) then RStripSpace(s[..|s| - 1]) else s
  }

  /** `lstrip` drops the leading whitespace and nothing else: what it cut off is all whitespace
      and what it kept is a suffix that does not start with whitespace. */
  lemma {:induction false} LStripSpec(s: string)
    ensures LStrip(s) == s[|s| - |LStrip(s)|..]
    ensures forall i | 0 <= i < |s| - |LStrip(s)| :: IsSpace(s[i])
    ensures LStrip(s) == [] || !IsSpace(LStrip(s)[0])
  {
    if |s| > 0 && IsSpace(s[0]) {
      LStripSpec(s[1..]);
      forall i | 0 <= i < |s| - |LStrip(s)| ensures IsSpace(s[i]) {
        if i > 0 {
          assert s[i] == s[1..][i - 1];
        }
      }
    }
  }

  /** `rstrip` drops the trailing whitespace and nothing else: what it cut off is all whitespace
      and what it kept is a prefix that does not end with whitespace. */
  lemma {:induction false} RStripSpec(s: string)
    ensures RStripSpace(s) <= s
    ensures forall i | |RStripSpace(s)| <= i < |s| :: IsSpace(s[i])
    ensures RStripSpace(s) == [] || !IsSpace(RStripSpace(s)[|RStripSpace(s)| - 1])
  {
    if |s| > 0 && IsSpace(s[|s| - 1]) {
      RStripSpec(s[..|s| - 1]);
    }
  }

  /** `r` is what lies between whitespace at the front of `s`, from `a`, and whitespace at the back. */
  predicate Between(s: string, a: int, r: string) {
    && 0 <= a <= |s| - |r|
    && r == s[a..a + |r|]
    && (forall i | 0 <= i < a :: IsSpace(s[i]))
    && (forall i | a + |r| <= i < |s| :: IsSpace(s[i]))
  }

  /** Stripping the front and then the back leaves what lies between the two runs of whitespace. */
  lemma StripBetween(s: string, l: string, r: string)
    requires |l| <= |s| && l == s[|s| - |l|..]
    requires forall i | 0 <= i < |s| - |l| :: IsSpace(s[i])
    requires r <= l
    requires forall i | |r| <= i < |l| :: IsSpace(l[i])
    ensures Between(s, |s| - |l|, r)
  {
    var a := |s| - |l|;
    assert r == l[..|r|];
    assert l[..|r|] == s[a..a + |r|];
    forall i | a + |r| <= i < |s| ensures IsSpace(s[i]) {
      assert s[i] == l[i - a];
    }
  }

  /** `str.strip()`: the text between the leading and the trailing whitespace. */
  function Strip(s: string): string {
    RStripSpace(LStrip(s))
  }

  /** The stripped text is what lies between a run of leading and a run of trailing whitespace,
      and it neither starts nor ends with whitespace. */
  lemma StripSpec(s: string)
    ensures exists a :: Between(s, a, Strip(s))
    ensures Strip(s) == [] || (!IsSpace(Strip(s)[0]) && !IsSpace(Strip(s)[|Strip(s)| - 1]))
  {
    var l := LStrip(s);
    LStripSpec(s);
    RStripSpec(l);
    StripBetween(s, l, RStripSpace(l));
    assert Between(s, |s| - |l|, Strip(s));
  }
}
