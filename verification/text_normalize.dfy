/**
 * Text normalisation of the Flask assistant (flask-backend/app.py):
 * `normalize_text` (lines 94-95), the category keys of
 * `normalized_categories` (line 25) and the `strip()` / `lower()` applied
 * to queries (lines 108, 225).
 *
 * `lower()` is modelled on ASCII letters; `strip()` removes the characters
 * Python's `str.isspace` accepts.
 */
module TextNormalize {

  /** A character of the class `[a-z0-9]`. */
  predicate IsLowerAlnum(c: char) {
    'a' <= c <= 'z' || '0' <= c <= '9'
  }

  /** Python's `str.isspace` for one character. */
  predicate IsSpace(c: char) {
    || '\t' <= c <= '\r' || '\U{1C}' <= c <= ' ' || c == '\U{85}' || c == '\U{A0}'
    || c == '\U{1680}' || '\U{2000}' <= c <= '\U{200A}' || c == '\U{2028}' || c == '\U{2029}'
    || c == '\U{202F}' || c == '\U{205F}' || c == '\U{3000}'
  }

  function LowerChar(c: char): char {
    if 'A' <= c <= 'Z' then (c as int + 32) as char else c
  }

  /** `str.lower()` on ASCII letters. */
  function Lower(s: string): (r: string)
    ensures |r| == |s|
    ensures forall i :: 0 <= i < |s| ==> r[i] == LowerChar(s[i])
  {
    if s == [] then [] else [LowerChar(s[0])] + Lower(s[1..])
  }

  /** Leading characters of a run matched by `[^a-z0-9]+`, dropped. */
  function SkipRun(s: string): (r: string)
    ensures |r| <= |s| && r == s[|s| - |r|..]
    ensures r == [] || IsLowerAlnum(r[0])
    ensures forall i :: 0 <= i < |s| - |r| ==> !IsLowerAlnum(s[i])
  {
    if s == [] || IsLowerAlnum(s[0]) then s
    else
      var r := SkipRun(s[1..]);
      assert forall i :: 1 <= i < |s| - |r| ==> s[i] == s[1..][i - 1];
      r
  }

  /** `re.sub(r"[^a-z0-9]+", " ", s)`: each maximal run outside `[a-z0-9]` becomes one blank. */
  function Squash(s: string): (r: string)
    ensures |r| <= |s| && Charset(r)
    decreases |s|
  {
    if s == [] then []
    else if IsLowerAlnum(s[0]) then [s[0]] + Squash(s[1..])
    else " " + Squash(SkipRun(s[1..]))
  }

  function TrimLeft(s: string): (r: string)
    ensures |r| <= |s| && r == s[|s| - |r|..]
    ensures r == [] || !IsSpace(r[0])
    ensures forall i :: 0 <= i < |s| - |r| ==> IsSpace(s[i])
  {
    if s != [] && IsSpace(s[0]) then TrimLeft(s[1..]) else s
  }

  function TrimRight(s: string): (r: string)
    ensures |r| <= |s| && r == s[..|r|]
    ensures r == [] || !IsSpace(r[|r| - 1])
    ensures forall i :: |r| <= i < |s| ==> IsSpace(s[i])
  {
    if s != [] && IsSpace(s[|s| - 1]) then TrimRight(s[..|s| - 1]) else s
  }

  /** `str.strip()`. */
  function Strip(s: string): (r: string)
    ensures r == [] || (!IsSpace(r[0]) && !IsSpace(r[|r| - 1]))
  {
    TrimRight(TrimLeft(s))
  }

  /**
   * Lines 94-95: `normalize_text`. The result is `[a-z0-9]` words separated
   * by single blanks, with no blank at either end.
   */
  function NormalizeText(text: string): (r: string)
    ensures Normal(r)
  {
    SquashShape(Lower(text));
    StripNormal(Squash(Lower(text)));
    Strip(Squash(Lower(text)))
  }

  /** `re.sub(r"[^a-z0-9]+", "", s)`: only the characters of `[a-z0-9]` are kept. */
  function KeepAlnum(s: string): (r: string)
    ensures forall i :: 0 <= i < |r| ==> IsLowerAlnum(r[i])
  {
    if s == [] then []
    else if IsLowerAlnum(s[0]) then [s[0]] + KeepAlnum(s[1..])
    else KeepAlnum(s[1..])
  }

  /** Line 25: the key a category is matched by. */
  function CategoryKey(category: string): (r: string)
    ensures forall i :: 0 <= i < |r| ==> IsLowerAlnum(r[i])
  {
    KeepAlnum(Lower(category))
  }

  /** `s.replace(" ", "")`. */
  function RemoveBlanks(s: string): (r: string)
    ensures |r| <= |s|
    ensures forall i :: 0 <= i < |r| ==> r[i] != ' '
    ensures (forall i :: 0 <= i < |s| ==> s[i] != ' ') ==> r == s
  {
    if s == [] then []
    else if s[0] == ' ' then RemoveBlanks(s[1..])
    else [s[0]] + RemoveBlanks(s[1..])
  }

  /** Only `[a-z0-9]` and blanks. */
  predicate Charset(s: string) {
    forall i :: 0 <= i < |s| ==> IsLowerAlnum(s[i]) || s[i] == ' '
  }

  predicate NoDoubleBlank(s: string) {
    forall i :: 0 <= i < |s| - 1 ==> s[i] == ' ' ==> s[i + 1] != ' '
  }

  /** The shape of `normalize_text`'s output: words of `[a-z0-9]` separated by single blanks. */
  predicate Normal(s: string) {
    && Charset(s)
    && NoDoubleBlank(s)
    && (s == [] || (s[0] != ' ' && s[|s| - 1] != ' '))
  }

  /** The output of `Squash` holds only `[a-z0-9]` and single blanks; it starts with the input's first kept character. */
  lemma {:induction false} SquashShape(s: string)
    ensures Charset(Squash(s)) && NoDoubleBlank(Squash(s))
    ensures s != [] && IsLowerAlnum(s[0]) ==> Squash(s) != [] && Squash(s)[0] == s[0]
    decreases |s|
  {
    if s != [] {
      if IsLowerAlnum(s[0]) {
        var rest := Squash(s[1..]);
        SquashShape(s[1..]);
        ConsShape(s[0], rest);
      } else {
        var rest := Squash(SkipRun(s[1..]));
        SquashShape(SkipRun(s[1..]));
        assert rest == [] || rest[0] != ' ' by {
          assert SkipRun(s[1..]) == [] || IsLowerAlnum(SkipRun(s[1..])[0]);
        }
        ConsShape(' ', rest);
      }
    }
  }

  /** A kept character, or a blank before text that does not start with one, keeps the shape. */
  lemma ConsShape(c: char, rest: string)
    requires IsLowerAlnum(c) || (c == ' ' && (rest == [] || rest[0] != ' '))
    requires Charset(rest) && NoDoubleBlank(rest)
    ensures Charset([c] + rest) && NoDoubleBlank([c] + rest)
  {
    var r := [c] + rest;
    forall i | 0 <= i < |r| - 1 && r[i] == ' ' ensures r[i + 1] != ' ' {
      assert r[i + 1] == rest[i];
      if i > 0 {
        assert r[i] == rest[i - 1];
      }
    }
  }

  /** A trimmed slice of text keeps the text's character set and single blanks. */
  lemma SliceShape(s: string, a: nat, b: nat)
    requires a <= b <= |s| && Charset(s) && NoDoubleBlank(s)
    ensures Charset(s[a..b]) && NoDoubleBlank(s[a..b])
  {
    var t := s[a..b];
    forall i | 0 <= i < |t| - 1 && t[i] == ' ' ensures t[i + 1] != ' ' {
      assert t[i] == s[a + i] && t[i + 1] == s[a + i + 1];
    }
  }

  /** Stripping text made of `[a-z0-9]` and single blanks leaves it in normal form. */
  lemma StripNormal(s: string)
    requires Charset(s) && NoDoubleBlank(s)
    ensures Normal(Strip(s))
  {
    var left := TrimLeft(s);
    SliceShape(s, |s| - |left|, |s|);
    var r := TrimRight(left);
    SliceShape(left, 0, |r|);
  }

  /** Text in normal form is its own `Squash`. */
  lemma {:induction false} SquashFixed(s: string)
    requires Charset(s) && NoDoubleBlank(s)
    ensures Squash(s) == s
    decreases |s|
  {
    if s != [] {
      var t := s[1..];
      SliceShape(s, 1, |s|);
      SquashFixed(t);
      assert s == [s[0]] + t;
      if !IsLowerAlnum(s[0]) {
        assert s[0] == ' ';
        assert SkipRun(t) == t by {
          assert t == [] || IsLowerAlnum(t[0]);
        }
      }
    }
  }

  lemma LowerFixed(s: string)
    requires Charset(s)
    ensures Lower(s) == s
  {
  }

  lemma AlnumNotSpace(c: char)
    requires IsLowerAlnum(c)
    ensures !IsSpace(c)
  {
  }

  lemma StripFixed(s: string)
    requires s == [] || (IsLowerAlnum(s[0]) && IsLowerAlnum(s[|s| - 1]))
    ensures Strip(s) == s
  {
    if s != [] {
      AlnumNotSpace(s[0]);
      AlnumNotSpace(s[|s| - 1]);
      assert TrimLeft(s) == s;
    }
  }

  /** Text in normal form is left unchanged by `normalize_text`. */
  lemma NormalFixed(s: string)
    requires Normal(s)
    ensures NormalizeText(s) == s
  {
    LowerFixed(s);
    SquashFixed(s);
    StripFixed(s);
  }

  /** Line 95: `normalize_text` is idempotent. */
  lemma NormalizeTextIdempotent(text: string)
    ensures NormalizeText(NormalizeText(text)) == NormalizeText(text)
  {
    NormalFixed(NormalizeText(text));
  }

  lemma {:induction false} RemoveBlanksAppend(a: string, b: string)
    ensures RemoveBlanks(a + b) == RemoveBlanks(a) + RemoveBlanks(b)
    decreases |a|
  {
    if a == [] {
      assert a + b == b;
    } else {
      assert (a + b)[0] == a[0];
      assert (a + b)[1..] == a[1..] + b;
      RemoveBlanksAppend(a[1..], b);
      if a[0] != ' ' {
        assert RemoveBlanks(a + b) == [a[0]] + (RemoveBlanks(a[1..]) + RemoveBlanks(b));
      }
    }
  }

  lemma {:induction false} KeepAlnumOfRun(s: string)
    ensures KeepAlnum(s) == KeepAlnum(SkipRun(s))
    decreases |s|
  {
    if s != [] && !IsLowerAlnum(s[0]) {
      KeepAlnumOfRun(s[1..]);
    }
  }

  /** Squashing changes only the runs outside `[a-z0-9]`: without its blanks it is the kept characters. */
  lemma {:induction false} RemoveBlanksOfSquash(s: string)
    ensures RemoveBlanks(Squash(s)) == KeepAlnum(s)
    decreases |s|
  {
    if s != [] {
      if IsLowerAlnum(s[0]) {
        RemoveBlanksOfSquash(s[1..]);
        RemoveBlanksAppend([s[0]], Squash(s[1..]));
      } else {
        var t := SkipRun(s[1..]);
        RemoveBlanksOfSquash(t);
        RemoveBlanksAppend(" ", Squash(t));
        KeepAlnumOfRun(s[1..]);
      }
    }
  }

  /** Dropping blanks from either end of text changes nothing once the blanks are removed. */
  lemma RemoveBlanksOfTrimLeft(s: string)
    requires Charset(s)
    ensures RemoveBlanks(TrimLeft(s)) == RemoveBlanks(s)
    ensures Charset(TrimLeft(s))
  {
    var left := TrimLeft(s);
    var k := |s| - |left|;
    var head := s[..k];
    assert s == head + left;
    forall i | 0 <= i < |head| ensures head[i] == ' ' {
      if IsLowerAlnum(s[i]) {
        AlnumNotSpace(s[i]);
      }
    }
    BlanksOnly(head);
    RemoveBlanksAppend(head, left);
    forall i | 0 <= i < |left| ensures IsLowerAlnum(left[i]) || left[i] == ' ' {
      assert left[i] == s[k + i];
    }
  }

  lemma RemoveBlanksOfTrimRight(s: string)
    requires Charset(s)
    ensures RemoveBlanks(TrimRight(s)) == RemoveBlanks(s)
  {
    var r := TrimRight(s);
    var tail := s[|r|..];
    assert s == r + tail;
    forall i | 0 <= i < |tail| ensures tail[i] == ' ' {
      assert tail[i] == s[|r| + i];
      if IsLowerAlnum(tail[i]) {
        AlnumNotSpace(tail[i]);
      }
    }
    BlanksOnly(tail);
    RemoveBlanksAppend(r, tail);
    assert RemoveBlanks(r) + [] == RemoveBlanks(r);
  }

  lemma RemoveBlanksOfTrim(s: string)
    requires Charset(s)
    ensures RemoveBlanks(Strip(s)) == RemoveBlanks(s)
  {
    RemoveBlanksOfTrimLeft(s);
    RemoveBlanksOfTrimRight(TrimLeft(s));
  }

  lemma {:induction false} BlanksOnly(s: string)
    requires forall i :: 0 <= i < |s| ==> s[i] == ' '
    ensures RemoveBlanks(s) == []
    decreases |s|
  {
    if s != [] {
      BlanksOnly(s[1..]);
    }
  }

  /**
   * Lines 124-127 compare category keys with the normalised input stripped
   * of its blanks; that text is the input's own `[a-z0-9]` characters, so
   * the input and the category go through the same normalisation.
   */
  lemma SquashedInput(text: string)
    ensures RemoveBlanks(NormalizeText(text)) == KeepAlnum(Lower(text))
  {
    var sq := Squash(Lower(text));
    SquashShape(Lower(text));
    RemoveBlanksOfTrim(sq);
    RemoveBlanksOfSquash(Lower(text));
  }

  lemma {:induction false} KeepAlnumAppend(a: string, b: string)
    ensures KeepAlnum(a + b) == KeepAlnum(a) + KeepAlnum(b)
    decreases |a|
  {
    if a == [] {
      assert a + b == b;
    } else {
      assert (a + b)[0] == a[0];
      assert (a + b)[1..] == a[1..] + b;
      KeepAlnumAppend(a[1..], b);
    }
  }

  lemma {:induction false} KeepAlnumAll(s: string)
    requires forall i :: 0 <= i < |s| ==> IsLowerAlnum(s[i])
    ensures KeepAlnum(s) == s
    decreases |s|
  {
    if s != [] {
      KeepAlnumAll(s[1..]);
    }
  }

  lemma LowerAppend(a: string, b: string)
    ensures Lower(a + b) == Lower(a) + Lower(b)
  {
  }

  /** Letters and digits in front of a category name go through to its key unchanged. */
  lemma KeyOfPrefixed(a: string, b: string)
    requires forall i :: 0 <= i < |a| ==> IsLowerAlnum(a[i])
    ensures CategoryKey(a + b) == a + CategoryKey(b)
  {
    LowerAppend(a, b);
    assert Lower(a) == a;
    KeepAlnumAppend(a, Lower(b));
    KeepAlnumAll(a);
  }
}
