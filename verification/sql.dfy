/**
 * Parameterised SQL as the PHP backend builds it: statement text assembled
 * from fixed templates whose holes are PostgreSQL positional placeholders
 * `$n`, and a separate list of bound values passed to `pg_query_params`.
 *
 * `Refs` collects the number after every `$` that is followed by decimal
 * digits. For the statements of this backend, which contain no quoted text,
 * these are exactly the parameters PostgreSQL binds. The lemmas here say
 * which numbers a rendered template and a joined list of rendered templates
 * refer to.
 */
module Sql {
  import opened PhpStrings

  /** A value bound to a placeholder; casts PHP applies to decoded JSON are kept symbolic. */
  datatype Param =
    | Text(s: string)              // a string bound as-is
    | JsonArray(items: seq<string>) // json_encode of a list of strings
    | Int(n: int)                  // an integer PHP already holds
    | Null                         // PHP null
    | CastToInt(source: string)    // (int) of a decoded JSON request field
    | CastToFloat(source: string)  // (float) of a decoded JSON request field

  /** A template is fixed text with holes; each hole becomes the same placeholder. */
  datatype Piece = Lit(text: string) | Hole
  type Template = seq<Piece>

  function Placeholder(n: nat): (s: string)
    ensures |s| > 0 && s[0] == '$'
  {
    "$" + NatToText(n)
  }

  function Render(t: Template, n: nat): string {
    if t == [] then [] else PieceText(t[0], n) + Render(t[1..], n)
  }

  function PieceText(p: Piece, n: nat): string {
    match p
    case Lit(s) => s
    case Hole => Placeholder(n)
  }

  function Holes(t: Template): nat {
    if t == [] then 0 else (if t[0].Hole? then 1 else 0) + Holes(t[1..])
  }

  function Repeat(n: nat, count: nat): (r: seq<nat>)
    ensures |r| == count && forall k :: 0 <= k < count ==> r[k] == n
  {
    if count == 0 then [] else [n] + Repeat(n, count - 1)
  }

  /** Text that holds no placeholder and cannot extend the digits of one before it. */
  predicate SafeLit(s: string) {
    |s| > 0 && !IsDigit(s[0]) && '$' !in s
  }

  predicate WellFormed(t: Template) {
    forall k :: 0 <= k < |t| ==> t[k].Lit? ==> SafeLit(t[k].text)
  }

  predicate StartsWithoutDigit(s: string) {
    s == [] || !IsDigit(s[0])
  }

  /** The parameter numbers a statement refers to, in order of appearance. */
  function Refs(s: string): seq<nat>
    decreases |s|, 0
  {
    if s == [] then []
    else if s[0] == '$' then RefsAfterDollar(s[1..])
    else Refs(s[1..])
  }

  /** The references in the text that follows a `$`: the number it names, if any, and the rest. */
  function RefsAfterDollar(s: string): seq<nat>
    decreases |s|, 1
  {
    var d := DigitRun(s);
    if |d| == 0 then Refs(s) else [DecimalValue(d)] + Refs(s[|d|..])
  }

  lemma NoDollarAppend(a: string, b: string)
    requires '$' !in a && '$' !in b
    ensures '$' !in a + b
  {
  }

  /** Text without a `$` contributes no reference. */
  lemma {:induction false} RefsSkip(a: string, b: string)
    requires '$' !in a
    ensures Refs(a + b) == Refs(b)
  {
    if a != [] {
      assert a[0] in a;
      assert (a + b)[0] == a[0];
      assert (a + b)[1..] == a[1..] + b;
      RefsSkip(a[1..], b);
    } else {
      assert a + b == b;
    }
  }

  /** A placeholder refers to its own number, provided no digit follows it. */
  lemma RefsPlaceholder(n: nat, b: string)
    requires StartsWithoutDigit(b)
    ensures Refs(Placeholder(n) + b) == [n] + Refs(b)
  {
    var d := NatToText(n);
    var s := Placeholder(n) + b;
    assert s[1..] == d + b;
    DigitRunOfDigitsThen(d, b);
    DecimalOfNatToText(n);
    assert (d + b)[|d|..] == b;
  }

  lemma RenderStartsWithoutDigit(t: Template, n: nat, rest: string)
    requires WellFormed(t) && StartsWithoutDigit(rest)
    ensures StartsWithoutDigit(Render(t, n) + rest)
  {
    if t != [] && t[0].Lit? {
      assert SafeLit(t[0].text);
    }
  }

  lemma WellFormedTail(t: Template)
    requires WellFormed(t) && t != []
    ensures WellFormed(t[1..])
  {
    forall k | 0 <= k < |t| - 1 ensures t[1..][k].Lit? ==> SafeLit(t[1..][k].text) {
      assert t[1..][k] == t[k + 1];
    }
  }

  /** Rendering a template is rendering its first piece, then the rest. */
  lemma RenderCons(t: Template, n: nat)
    requires t != []
    ensures Render(t, n) == PieceText(t[0], n) + Render(t[1..], n)
    ensures Holes(t) == (if t[0].Hole? then 1 else 0) + Holes(t[1..])
  {
  }

  /** A template that opens with a hole refers to its number, then to what the rest refers to. */
  lemma RefsLeadingHole(t: Template, n: nat, rest: string)
    requires t != [] && t[0].Hole? && WellFormed(t[1..]) && StartsWithoutDigit(rest)
    ensures Refs(Render(t, n) + rest) == [n] + Refs(Render(t[1..], n) + rest)
  {
    var tail := Render(t[1..], n) + rest;
    assert Render(t, n) + rest == Placeholder(n) + tail by {
      RenderCons(t, n);
    }
    RenderStartsWithoutDigit(t[1..], n, rest);
    RefsPlaceholder(n, tail);
  }

  /** One step of `RefsRender`: a leading hole adds one reference to the template's number. */
  lemma RefsHoleStep(t: Template, n: nat, rest: string)
    requires t != [] && t[0].Hole? && WellFormed(t[1..]) && StartsWithoutDigit(rest)
    requires Refs(Render(t[1..], n) + rest) == Repeat(n, Holes(t[1..])) + Refs(rest)
    ensures Refs(Render(t, n) + rest) == Repeat(n, Holes(t)) + Refs(rest)
  {
    RefsLeadingHole(t, n, rest);
    RenderCons(t, n);
    PrependOne(Refs(Render(t, n) + rest), n, Refs(Render(t[1..], n) + rest),
      Repeat(n, Holes(t[1..])), Refs(rest), Repeat(n, Holes(t)));
  }

  lemma PrependOne(whole: seq<nat>, n: nat, tail: seq<nat>, head: seq<nat>, rest: seq<nat>, count: seq<nat>)
    requires whole == [n] + tail && tail == head + rest && count == [n] + head
    ensures whole == count + rest
  {
  }

  /** One step of `RefsRender`: leading literal text adds no reference. */
  lemma RefsLitStep(t: Template, n: nat, rest: string)
    requires t != [] && t[0].Lit? && SafeLit(t[0].text)
    requires Refs(Render(t[1..], n) + rest) == Repeat(n, Holes(t[1..])) + Refs(rest)
    ensures Refs(Render(t, n) + rest) == Repeat(n, Holes(t)) + Refs(rest)
  {
    RefsLeadingLit(t, n, rest);
  }

  /** Literal text in front of the rest of a template adds no reference and no hole. */
  lemma RefsLeadingLit(t: Template, n: nat, rest: string)
    requires t != [] && t[0].Lit? && SafeLit(t[0].text)
    ensures Refs(Render(t, n) + rest) == Refs(Render(t[1..], n) + rest)
    ensures Holes(t) == Holes(t[1..])
  {
    var tail := Render(t[1..], n) + rest;
    RenderCons(t, n);
    assert Render(t, n) + rest == t[0].text + tail;
    RefsSkip(t[0].text, tail);
  }

  /** A rendered template refers to its own number once per hole and to nothing else. */
  lemma {:induction false} RefsRender(t: Template, n: nat, rest: string)
    requires WellFormed(t) && StartsWithoutDigit(rest)
    ensures Refs(Render(t, n) + rest) == Repeat(n, Holes(t)) + Refs(rest)
  {
    if t == [] {
      assert Render(t, n) + rest == rest;
    } else {
      WellFormedTail(t);
      RefsRender(t[1..], n, rest);
      if t[0].Lit? {
        RefsLitStep(t, n, rest);
      } else {
        RefsHoleStep(t, n, rest);
      }
    }
  }

  /** The references of a list of templates numbered consecutively from `start`. */
  function Expand(ts: seq<Template>, start: nat): seq<nat> {
    if ts == [] then [] else Repeat(start, Holes(ts[0])) + Expand(ts[1..], start + 1)
  }

  /** Fragment k of the list is template k rendered with number start + k. */
  predicate RenderedFrom(frags: seq<string>, ts: seq<Template>, start: nat) {
    && |frags| == |ts|
    && (forall k :: 0 <= k < |ts| ==> WellFormed(ts[k]))
    && (forall k :: 0 <= k < |ts| ==> frags[k] == Render(ts[k], start + k))
  }

  /** Templates rendered with consecutive numbers from `start`. */
  function Numbered(ts: seq<Template>, start: nat): (r: seq<string>)
    ensures |r| == |ts|
  {
    seq(|ts|, k requires 0 <= k < |ts| => Render(ts[k], start + k))
  }

  lemma NumberedRendered(ts: seq<Template>, start: nat)
    requires forall k :: 0 <= k < |ts| ==> WellFormed(ts[k])
    ensures RenderedFrom(Numbered(ts, start), ts, start)
  {
  }

  /** Appending a template appends its rendering, numbered after the others. */
  lemma NumberedAppend(ts: seq<Template>, t: Template, start: nat)
    ensures Numbered(ts + [t], start) == Numbered(ts, start) + [Render(t, start + |ts|)]
  {
    var longer := ts + [t];
    forall k | 0 <= k < |ts| ensures Numbered(longer, start)[k] == Numbered(ts, start)[k] {
      assert longer[k] == ts[k];
    }
    assert longer[|ts|] == t;
  }

  lemma RenderedFromTail(frags: seq<string>, ts: seq<Template>, start: nat)
    requires RenderedFrom(frags, ts, start) && frags != []
    ensures RenderedFrom(frags[1..], ts[1..], start + 1)
  {
    forall k | 0 <= k < |ts| - 1 ensures frags[1..][k] == Render(ts[1..][k], start + 1 + k) {
      assert frags[k + 1] == Render(ts[k + 1], start + (k + 1));
    }
  }

  /** One step of `RefsImplode`: a fragment, the separator, then the rest of the list. */
  lemma RefsImplodeStep(sep: string, frags: seq<string>, ts: seq<Template>, start: nat, rest: string, tail: string)
    requires RenderedFrom(frags, ts, start) && |frags| >= 2 && SafeLit(sep)
    requires tail == Implode(sep, frags[1..]) + rest
    requires Refs(tail) == Expand(ts[1..], start + 1) + Refs(rest)
    ensures Refs(Implode(sep, frags) + rest) == Expand(ts, start) + Refs(rest)
  {
    var whole := Implode(sep, frags) + rest;
    assert Implode(sep, frags) == frags[0] + sep + Implode(sep, frags[1..]);
    Reassociate4(frags[0], sep, Implode(sep, frags[1..]), rest);
    RefsFragmentThen(frags[0], ts[0], start, sep, tail, Expand(ts[1..], start + 1) + Refs(rest));
    assert Refs(whole) == Refs(frags[0] + (sep + tail));
  }

  lemma Reassociate4(a: string, b: string, c: string, d: string)
    ensures a + b + c + d == a + (b + (c + d))
  {
  }

  lemma RefsFragmentThen(f: string, t: Template, n: nat, sep: string, tail: string, tailRefs: seq<nat>)
    requires WellFormed(t) && f == Render(t, n) && SafeLit(sep)
    requires Refs(tail) == tailRefs
    ensures Refs(f + (sep + tail)) == Repeat(n, Holes(t)) + tailRefs
  {
    RefsRender(t, n, sep + tail);
    RefsSkip(sep, tail);
  }

  /** Joining rendered fragments with a safe separator keeps their references in order. */
  lemma {:induction false} RefsImplode(sep: string, frags: seq<string>, ts: seq<Template>, start: nat, rest: string)
    requires RenderedFrom(frags, ts, start)
    requires SafeLit(sep) && StartsWithoutDigit(rest)
    ensures Refs(Implode(sep, frags) + rest) == Expand(ts, start) + Refs(rest)
    decreases |frags|
  {
    if |frags| == 0 {
      assert Implode(sep, frags) + rest == rest;
    } else if |frags| == 1 {
      var whole := Implode(sep, frags) + rest;
      assert whole == Render(ts[0], start) + rest;
      RefsRender(ts[0], start, rest);
      assert Refs(whole) == Refs(Render(ts[0], start) + rest);
      assert Expand(ts, start) == Repeat(start, Holes(ts[0])) + Expand([], start + 1);
    } else {
      RenderedFromTail(frags, ts, start);
      RefsImplode(sep, frags[1..], ts[1..], start + 1, rest);
      RefsImplodeStep(sep, frags, ts, start, rest, Implode(sep, frags[1..]) + rest);
    }
  }

  /** Every number a list of templates refers to is one of theirs; with a hole in each, every one of them is used. */
  lemma {:induction false} ExpandBounds(ts: seq<Template>, start: nat)
    ensures forall x :: x in Expand(ts, start) ==> start <= x < start + |ts|
    ensures (forall k :: 0 <= k < |ts| ==> Holes(ts[k]) > 0) ==>
              forall x: nat :: start <= x < start + |ts| ==> x in Expand(ts, start)
    decreases |ts|
  {
    if ts != [] {
      ExpandBounds(ts[1..], start + 1);
      var head := Repeat(start, Holes(ts[0]));
      assert Expand(ts, start) == head + Expand(ts[1..], start + 1);
      if forall k :: 0 <= k < |ts| ==> Holes(ts[k]) > 0 {
        assert head[0] == start;
        assert forall k :: 0 <= k < |ts| - 1 ==> Holes(ts[1..][k]) > 0 by {
          forall k | 0 <= k < |ts| - 1 ensures Holes(ts[1..][k]) > 0 {
            assert ts[1..][k] == ts[k + 1];
          }
        }
      }
    }
  }

  /** Templates with one hole each, numbered from `start`, refer to start, start + 1, ... once each, in order. */
  lemma {:induction false} ExpandSingles(ts: seq<Template>, start: nat)
    requires forall k :: 0 <= k < |ts| ==> Holes(ts[k]) == 1
    ensures Expand(ts, start) == seq(|ts|, k => start + k)
    decreases |ts|
  {
    if ts != [] {
      forall k | 0 <= k < |ts| - 1 ensures Holes(ts[1..][k]) == 1 {
        assert ts[1..][k] == ts[k + 1];
      }
      ExpandSingles(ts[1..], start + 1);
      assert Repeat(start, Holes(ts[0])) == [start];
      assert Expand(ts, start) == [start] + seq(|ts| - 1, k => start + 1 + k);
    }
  }

  /** Counting 1 .. m, then m + 1. */
  lemma CountUp(m: nat)
    ensures seq(m, k => 1 + k) + [m + 1] == seq(m + 1, k => k + 1)
  {
  }
}
