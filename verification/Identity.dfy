/** How an identity string becomes a bounded, escaped field value
    (internal/notification/discord.go). */
module Identity {
  import opened Wrappers
  import opened Text

  const FIELD_LIMIT: nat := 1024
  const ELLIPSIS: char := '\U{2026}'
  const UNKNOWN: string := "未取得"

  predicate IsControl(r: char) {
    r as int < 0x20 || 0x7F <= r as int < 0xA0
  }

  /** Characters that end a line or are invisible controls. */
  predicate BreaksLine(r: char) {
    IsControl(r) || r == '\U{2028}' || r == '\U{2029}'
  }

  predicate IsSafe(s: string) {
    forall i :: 0 <= i < |s| ==> s[i] != '`' && !BreaksLine(s[i])
  }

  method IsSafeCode(s: string) returns (safe: bool)
    ensures safe == IsSafe(s)
    ensures safe <==> forall c :: c in s ==>
      c != '`' && (0x20 <= c as int < 0x7F || 0xA0 <= c as int) && c as int != 0x2028 && c as int != 0x2029
  {
    for i := 0 to |s|
      invariant IsSafe(s[..i])
    {
      if s[i] == '`' || BreaksLine(s[i]) {
        assert s[i] in s;
        return false;
      }
    }
    return true;
  }

  predicate IsMarkdown(r: char) {
    || r == '\\' || r == '`' || r == '*' || r == '_' || r == '~' || r == '|' || r == '>'
    || r == '<' || r == '[' || r == ']' || r == '#' || r == '(' || r == ')'
  }

  function HexValue(c: char): Option<nat> {
    if '0' <= c <= '9' then Some(c as int - '0' as int)
    else if 'a' <= c <= 'f' then Some(c as int - 'a' as int + 10)
    else None
  }

  function HexDigit(n: nat): (c: char)
    requires n < 16
    ensures HexValue(c) == Some(n)
  {
    if n < 10 then '0' + n as char else 'a' + (n - 10) as char
  }

  /** The `\uXXXX` form: four lower-case hexadecimal digits. */
  function HexEscape(code: nat): string
    requires code < 0x10000
  {
    var hi, lo := code / 0x100, code % 0x100;
    ['\\', 'u', HexDigit(hi / 0x10), HexDigit(hi % 0x10), HexDigit(lo / 0x10), HexDigit(lo % 0x10)]
  }

  function Fragment(r: char, safe: bool): (f: string)
    ensures f != []
  {
    if safe then [r]
    else if IsMarkdown(r) then ['\\', r]
    else if r == '\n' then "\\n"
    else if r == '\r' then "\\r"
    else if r == '\t' then "\\t"
    else if BreaksLine(r) then HexEscape(r as int)
    else [r]
  }

  lemma {:induction false} AsciiUnits(f: string)
    requires forall i :: 0 <= i < |f| ==> f[i] as int < 0x80
    ensures Units(f) == |f|
  {
    if f != [] {
      AsciiUnits(f[1..]);
    }
  }

  /** Every fragment of the string, with no limit: the simple form. */
  function RenderAll(s: string, safe: bool): string {
    if s == [] then [] else Fragment(s[0], safe) + RenderAll(s[1..], safe)
  }

  lemma RenderStep(s: string, safe: bool)
    requires s != []
    ensures RenderAll(s, safe) == Fragment(s[0], safe) + RenderAll(s[1..], safe)
  {
  }

  lemma Glue(f: string, a: string, b: string, ab: string, fa: string, fab: string)
    requires ab == a + b && fa == f + a && fab == f + ab
    ensures fab == fa + b
  {
    Text.Associative(f, a, b);
  }

  lemma {:induction false} RenderConcat(a: string, b: string, safe: bool)
    ensures RenderAll(a + b, safe) == RenderAll(a, safe) + RenderAll(b, safe)
  {
    if a == [] {
      assert a + b == b;
    } else {
      var whole, rest := a + b, a[1..];
      assert whole[1..] == rest + b && whole[0] == a[0];
      RenderConcat(rest, b, safe);
      RenderStep(a, safe);
      RenderStep(whole, safe);
      Glue(Fragment(a[0], safe), RenderAll(rest, safe), RenderAll(b, safe),
           RenderAll(rest + b, safe), RenderAll(a, safe), RenderAll(whole, safe));
    }
  }

  lemma EllipsisIsPlain(safe: bool)
    ensures RenderAll([ELLIPSIS], safe) == [ELLIPSIS] && Units([ELLIPSIS]) == 1
  {
    assert [ELLIPSIS][1..] == [];
    assert Fragment(ELLIPSIS, safe) == [ELLIPSIS];
    assert RenderAll([], safe) == [];
    assert Units([]) == 0;
  }

  function Mark(safe: bool): string {
    if safe then "`" else ""
  }

  function Limit(safe: bool): nat {
    if safe then FIELD_LIMIT - 2 else FIELD_LIMIT
  }

  function PrefixUnits(s: string, safe: bool, k: nat): nat
    requires k <= |s|
  {
    Units(RenderAll(s[..k], safe))
  }

  lemma PrefixUnitsStep(s: string, safe: bool, k: nat)
    requires k < |s|
    ensures RenderAll(s[..k + 1], safe) == RenderAll(s[..k], safe) + Fragment(s[k], safe)
    ensures PrefixUnits(s, safe, k + 1) == PrefixUnits(s, safe, k) + Units(Fragment(s[k], safe))
  {
    assert s[..k + 1] == s[..k] + [s[k]];
    RenderConcat(s[..k], [s[k]], safe);
    assert RenderAll([s[k]], safe) == Fragment(s[k], safe) + RenderAll([], safe);
    UnitsConcat(RenderAll(s[..k], safe), Fragment(s[k], safe));
  }

  lemma {:induction false} PrefixUnitsGrow(s: string, safe: bool, j: nat, k: nat)
    requires j <= k <= |s|
    ensures PrefixUnits(s, safe, j) <= PrefixUnits(s, safe, k)
    decreases k
  {
    if j < k {
      PrefixUnitsGrow(s, safe, j, k - 1);
      PrefixUnitsStep(s, safe, k - 1);
    }
  }

  /** The longest prefix, among the first n characters, that leaves room for an ellipsis. */
  function Kept(s: string, safe: bool, n: nat): (k: nat)
    requires n <= |s|
    ensures k <= n && PrefixUnits(s, safe, k) <= Limit(safe) - 1
    ensures forall j :: k < j <= n ==> PrefixUnits(s, safe, j) > Limit(safe) - 1
  {
    if n == 0 || PrefixUnits(s, safe, n) <= Limit(safe) - 1 then n else Kept(s, safe, n - 1)
  }

  predicate Fits(s: string) {
    PrefixUnits(s, IsSafe(s), |s|) <= Limit(IsSafe(s))
  }

  /** The text a reader is meant to see: all of s, or its kept prefix and an ellipsis. */
  function Shown(s: string): string {
    if Fits(s) then s else s[..Kept(s, IsSafe(s), |s|)] + [ELLIPSIS]
  }

  /** Render everything, then cut to whole fragments. */
  function Bounded(s: string): string {
    Mark(IsSafe(s)) + RenderAll(Shown(s), IsSafe(s)) + Mark(IsSafe(s))
  }

  lemma {:induction false} RenderSafe(s: string)
    ensures RenderAll(s, true) == s
  {
    if s != [] {
      RenderSafe(s[1..]);
    }
  }

  lemma Regroup(a: string, b: string, c: string, d: string)
    ensures a + (b + c) + d == (a + b) + c + d
  {
    assert a + (b + c) == (a + b) + c;
  }

  lemma TruncatedForm(s: string, safe: bool, k: nat)
    requires safe == IsSafe(s) && k == Kept(s, safe, |s|) && !Fits(s)
    ensures Bounded(s) == (Mark(safe) + RenderAll(s[..k], safe)) + [ELLIPSIS] + Mark(safe)
  {
    RenderConcat(s[..k], [ELLIPSIS], safe);
    EllipsisIsPlain(safe);
    Regroup(Mark(safe), RenderAll(s[..k], safe), [ELLIPSIS], Mark(safe));
  }

  lemma AppendStep(s: string, safe: bool, i: nat, mark: string)
    requires i < |s|
    ensures mark + RenderAll(s[..i + 1], safe) == mark + RenderAll(s[..i], safe) + Fragment(s[i], safe)
    ensures PrefixUnits(s, safe, i + 1) == PrefixUnits(s, safe, i) + Units(Fragment(s[i], safe))
    ensures Kept(s, safe, i + 1) == if PrefixUnits(s, safe, i + 1) <= Limit(safe) - 1 then i + 1 else Kept(s, safe, i)
  {
    PrefixUnitsStep(s, safe, i);
    assert mark + (RenderAll(s[..i], safe) + Fragment(s[i], safe)) ==
           mark + RenderAll(s[..i], safe) + Fragment(s[i], safe);
  }

  /** One fragment and its size: an escape is ASCII, so its length; otherwise the rune's units. */
  method MeasureFragment(r: char, safe: bool) returns (fragment: string, n: nat)
    ensures fragment == Fragment(r, safe) && n == Units(fragment)
  {
    fragment := Fragment(r, safe);
    n := RuneUnits(r);
    if !safe && fragment[0] == '\\' {
      AsciiUnits(fragment);
      n := |fragment|;
    }
  }

  /** Once the next fragment overflows, no longer prefix can be kept. */
  lemma CutIsFinal(s: string, safe: bool, i: nat)
    requires safe == IsSafe(s) && i < |s| && PrefixUnits(s, safe, i + 1) > Limit(safe)
    ensures !Fits(s) && Kept(s, safe, |s|) == Kept(s, safe, i)
  {
    forall j | i < j <= |s|
      ensures PrefixUnits(s, safe, j) > Limit(safe)
    {
      PrefixUnitsGrow(s, safe, i + 1, j);
    }
  }

  /** The one-pass loop with its running size and saved cut point refines the simple form. */
  method RenderBounded(s: string) returns (out: string)
    ensures out == Bounded(s)
  {
    var safe := IsSafeCode(s);
    var mark, limit := Mark(safe), Limit(safe);
    var b := mark;
    var units, cut := 0, |b|;
    ghost var kept := 0;
    assert s[..0] == [];
    for i := 0 to |s|
      invariant b == mark + RenderAll(s[..i], safe)
      invariant units == PrefixUnits(s, safe, i) <= limit
      invariant kept == Kept(s, safe, i) && 0 <= cut <= |b|
      invariant b[..cut] == mark + RenderAll(s[..kept], safe)
    {
      var fragment, n := MeasureFragment(s[i], safe);
      AppendStep(s, safe, i, mark);
      if units + n > limit {
        CutIsFinal(s, safe, i);
        TruncatedForm(s, safe, kept);
        return b[..cut] + [ELLIPSIS] + mark;
      }
      assert (b + fragment)[..cut] == b[..cut];
      b := b + fragment;
      units := units + n;
      if units <= limit - 1 {
        cut, kept := |b|, i + 1;
      }
    }
    assert s[..|s|] == s;
    return b + mark;
  }

  lemma ShownUnits(s: string)
    ensures Units(RenderAll(Shown(s), IsSafe(s))) <= Limit(IsSafe(s))
    ensures !Fits(s) ==> Shown(s) != s && Shown(s)[..|Shown(s)| - 1] == s[..|Shown(s)| - 1]
  {
    var safe := IsSafe(s);
    if Fits(s) {
      assert s[..|s|] == s;
    } else {
      var k := Kept(s, safe, |s|);
      RenderConcat(s[..k], [ELLIPSIS], safe);
      EllipsisIsPlain(safe);
      UnitsConcat(RenderAll(s[..k], safe), [ELLIPSIS]);
      assert s == s[..|s|];
    }
  }

  /** No field value exceeds Discord's limit, whatever the identity string. */
  lemma BoundedSize(s: string)
    ensures Units(Bounded(s)) <= 1024
  {
    var safe := IsSafe(s);
    var body := RenderAll(Shown(s), safe);
    assert Units(body) <= Limit(safe) by {
      ShownUnits(s);
    }
    UnitsConcat(Mark(safe), body);
    UnitsConcat(Mark(safe) + body, Mark(safe));
    AsciiUnits(Mark(safe));
  }

  lemma FramedUnits(a: string, safe: bool)
    ensures Units(Mark(safe) + a + Mark(safe)) == Units(a) + if safe then 2 else 0
  {
    UnitsConcat(Mark(safe), a);
    UnitsConcat(Mark(safe) + a, Mark(safe));
    AsciiUnits(Mark(safe));
  }

  lemma NoLaterCut(s: string, safe: bool, j: nat)
    requires Kept(s, safe, |s|) < j <= |s|
    ensures Units(Mark(safe) + RenderAll(s[..j] + [ELLIPSIS], safe) + Mark(safe)) > 1024
  {
    var body := RenderAll(s[..j], safe);
    assert Units(body) == PrefixUnits(s, safe, j) > Limit(safe) - 1;
    RenderConcat(s[..j], [ELLIPSIS], safe);
    EllipsisIsPlain(safe);
    UnitsConcat(body, [ELLIPSIS]);
    FramedUnits(body + [ELLIPSIS], safe);
  }

  /** A string is cut only if its full rendering exceeds 1024 units, and then as late as
      possible: with any more of it, the value would exceed them. */
  lemma CutAsLateAsPossible(s: string)
    ensures Shown(s) == s <==> Units(Mark(IsSafe(s)) + RenderAll(s, IsSafe(s)) + Mark(IsSafe(s))) <= 1024
    ensures Shown(s) != s ==>
      |Shown(s)| <= |s| && Shown(s) == s[..|Shown(s)| - 1] + [ELLIPSIS]
      && forall j :: |Shown(s)| <= j <= |s| ==>
           Units(Mark(IsSafe(s)) + RenderAll(s[..j] + [ELLIPSIS], IsSafe(s)) + Mark(IsSafe(s))) > 1024
  {
    var safe := IsSafe(s);
    assert s[..|s|] == s;
    FramedUnits(RenderAll(s, safe), safe);
    if !Fits(s) {
      ShownUnits(s);
      forall j | |Shown(s)| <= j <= |s|
        ensures Units(Mark(safe) + RenderAll(s[..j] + [ELLIPSIS], safe) + Mark(safe)) > 1024
      {
        NoLaterCut(s, safe, j);
      }
    }
  }

  // ----- the escape code is uniquely decodable

  function Cons(c: char, rest: Option<string>): Option<string> {
    match rest
    case None => None
    case Some(t) => Some([c] + t)
  }

  /** Reads four hexadecimal digits as a scalar value. */
  function ReadHex(t: string): Option<char>
    requires |t| >= 4
  {
    match (HexValue(t[0]), HexValue(t[1]), HexValue(t[2]), HexValue(t[3]))
    case (Some(a), Some(b), Some(c), Some(d)) =>
      var code := 0x1000 * a + 0x100 * b + 0x10 * c + d;
      if code < 0xD800 || 0xE000 <= code < 0x10000 then Some(code as char) else None
    case _ => None
  }

  /** Stands for itself in escaped text: no punctuation with a meaning, no control, no line end. */
  predicate StandsForItself(c: char) {
    c !in "\\`*_~|><[]#()" && (0x20 <= c as int < 0x7F || 0xA0 <= c as int) && c as int !in {0x2028, 0x2029}
  }

  /** A strict reader for escaped text, written from the escape table alone: it rejects
      whatever must be escaped and is not, and escapes the table does not have. */
  function Unescape(t: string): Option<string> {
    if t == [] then Some([])
    else if t[0] != '\\' then if StandsForItself(t[0]) then Cons(t[0], Unescape(t[1..])) else None
    else if |t| < 2 then None
    else if t[1] in "\\`*_~|><[]#()" then Cons(t[1], Unescape(t[2..]))
    else if t[1] == 'n' then Cons('\n', Unescape(t[2..]))
    else if t[1] == 'r' then Cons('\r', Unescape(t[2..]))
    else if t[1] == 't' then Cons('\t', Unescape(t[2..]))
    else if t[1] == 'u' && |t| >= 6 && ReadHex(t[2..]).Some? then Cons(ReadHex(t[2..]).value, Unescape(t[6..]))
    else None
  }

  /** A reader for a whole field value: a code span, or escaped text. */
  function ReadField(t: string): Option<string> {
    if t != [] && t[0] == '`' then
      if |t| >= 2 && t[|t| - 1] == '`' then Some(t[1..|t| - 1]) else None
    else Unescape(t)
  }

  lemma HexReadsBack(r: char)
    requires r as int < 0x10000
    ensures |HexEscape(r as int)| == 6 && ReadHex(HexEscape(r as int)[2..]) == Some(r)
  {
    var code := r as int;
    var hi, lo := code / 0x100, code % 0x100;
    var a, b, c, d := hi / 0x10, hi % 0x10, lo / 0x10, lo % 0x10;
    assert 0x1000 * a + 0x100 * b + 0x10 * c + d == code;
    var t := HexEscape(code)[2..];
    assert t[0] == HexDigit(a) && t[1] == HexDigit(b) && t[2] == HexDigit(c) && t[3] == HexDigit(d);
  }

  lemma IsPunctuation(r: char)
    ensures IsMarkdown(r) <==> r in "\\`*_~|><[]#()"
  {
  }

  lemma UnescapeFragment(r: char, rest: string)
    ensures Unescape(Fragment(r, false) + rest) == Cons(r, Unescape(rest))
  {
    IsPunctuation(r);
    var f := Fragment(r, false);
    var t := f + rest;
    if |f| == 1 {
      assert t[1..] == rest;
    } else if |f| == 2 {
      assert t[2..] == rest;
    } else {
      HexReadsBack(r);
      assert f[0] == '\\' && f[1] == 'u';
      assert t[6..] == rest;
      assert t[2..][..4] == f[2..];
      assert ReadHex(t[2..]) == ReadHex(f[2..]);
    }
  }

  lemma {:induction false} UnescapeRendered(s: string)
    ensures Unescape(RenderAll(s, false)) == Some(s)
  {
    if s != [] {
      UnescapeRendered(s[1..]);
      UnescapeFragment(s[0], RenderAll(s[1..], false));
      assert [s[0]] + s[1..] == s;
    }
  }

  lemma EscapedStart(s: string)
    requires s != []
    ensures RenderAll(s, false) != [] && RenderAll(s, false)[0] != '`'
  {
  }

  lemma CodeSpanReadsBack(t: string)
    ensures ReadField("`" + t + "`") == Some(t)
  {
    assert ("`" + t + "`")[1..|t| + 1] == t;
  }

  lemma EscapedReadsBack(t: string)
    requires t != []
    ensures ReadField(RenderAll(t, false)) == Some(t)
  {
    EscapedStart(t);
    UnescapeRendered(t);
  }

  /** Reading a rendered value gives back exactly the text that was shown: all of
      the string, or a prefix of it followed by the ellipsis. */
  lemma FieldReadsBack(s: string)
    ensures ReadField(Bounded(s)) == Some(Shown(s))
  {
    var t := Shown(s);
    if IsSafe(s) {
      RenderSafe(t);
      CodeSpanReadsBack(t);
    } else {
      EscapedReadsBack(t);
      assert "" + RenderAll(t, false) + "" == RenderAll(t, false);
    }
  }

  /** A code span opens with a backtick; escaped text never does. */
  lemma ModeIsVisible(s: string)
    ensures Bounded(s) != [] && (Bounded(s)[0] == '`' <==> IsSafe(s))
  {
    if !IsSafe(s) {
      assert Shown(s) != [];
      EscapedStart(Shown(s));
    }
  }

  /** Exactly which pairs of inputs render alike. */
  lemma RendersAlikeIff(s: string, t: string)
    ensures Bounded(s) == Bounded(t) <==> IsSafe(s) == IsSafe(t) && Shown(s) == Shown(t)
  {
    FieldReadsBack(s);
    FieldReadsBack(t);
    if Bounded(s) == Bounded(t) {
      ModeIsVisible(s);
      ModeIsVisible(t);
    }
  }

  /** Untruncated rendering is injective, across code spans and escaped text. */
  lemma UntruncatedInjective(s: string, t: string)
    requires Fits(s) && Fits(t) && Bounded(s) == Bounded(t)
    ensures s == t
  {
    RendersAlikeIff(s, t);
  }

  /** A trailing ellipsis does not prove truncation: the shown text of a truncated
      string is itself an input that fits, and it renders the same exactly when the
      cut did not change the display mode. */
  lemma EllipsisIsAmbiguous(s: string)
    requires !Fits(s)
    ensures Shown(s) != s
    ensures IsSafe(Shown(s)) == IsSafe(s) ==> Fits(Shown(s))
    ensures Bounded(Shown(s)) == Bounded(s) <==> IsSafe(Shown(s)) == IsSafe(s)
    ensures IsSafe(s) ==> IsSafe(Shown(s))
  {
    ShownUnits(s);
    var t := Shown(s);
    assert t[..|t|] == t;
    RendersAlikeIff(t, s);
    assert t[|t| - 1] == ELLIPSIS;
  }

  /** A truncated value is also the value of some string that fits exactly when the cut did
      not change the display mode; that string is then the shown text. */
  lemma TruncatedIsAmbiguousIff(s: string)
    requires !Fits(s)
    ensures (exists t :: Fits(t) && Bounded(t) == Bounded(s)) <==> IsSafe(Shown(s)) == IsSafe(s)
  {
    EllipsisIsAmbiguous(s);
    if IsSafe(Shown(s)) == IsSafe(s) {
      assert Fits(Shown(s)) && Bounded(Shown(s)) == Bounded(s);
    }
    forall t | Fits(t) && Bounded(t) == Bounded(s)
      ensures t == Shown(s) && IsSafe(t) == IsSafe(s)
    {
      RendersAlikeIff(t, s);
    }
  }

  /** Every code span longer than the limit is such a case. */
  lemma LongCodeIsAmbiguous(s: string)
    requires IsSafe(s) && |s| > FIELD_LIMIT - 2
    ensures !Fits(s) && Fits(Shown(s)) && Shown(s) != s && Bounded(Shown(s)) == Bounded(s)
  {
    assert s[..|s|] == s;
    RenderSafe(s);
    UnitsBounds(s);
    EllipsisIsAmbiguous(s);
  }

  lemma AmbiguousExample()
    ensures var s := seq(1100, i => 'a'); !Fits(s) && Fits(Shown(s)) && Bounded(Shown(s)) == Bounded(s)
  {
    LongCodeIsAmbiguous(seq(1100, i => 'a'));
  }

  // ----- what can appear in a rendered value

  lemma {:induction false} RenderedCharacters(s: string, safe: bool)
    requires safe ==> IsSafe(s)
    ensures forall c :: c in RenderAll(s, safe) ==> !BreaksLine(c)
    ensures safe ==> '`' !in RenderAll(s, safe)
    ensures !safe ==> forall i :: 0 <= i < |RenderAll(s, safe)| && RenderAll(s, safe)[i] == '`' ==>
            i > 0 && RenderAll(s, safe)[i - 1] == '\\'
  {
    if s != [] {
      RenderedCharacters(s[1..], safe);
      var f, rest := Fragment(s[0], safe), RenderAll(s[1..], safe);
      assert forall c :: c in f ==> !BreaksLine(c);
      if !safe {
        forall i | 0 <= i < |f + rest| && (f + rest)[i] == '`'
          ensures i > 0 && (f + rest)[i - 1] == '\\'
        {
          if i >= |f| {
            assert rest[i - |f|] == '`';
            assert (f + rest)[i - 1] == rest[i - |f| - 1];
          }
        }
      }
    }
  }

  /** No raw control or line separator; backticks only as the two code marks, or escaped. */
  lemma BoundedCharacters(s: string)
    ensures forall c :: c in Bounded(s) ==>
      (0x20 <= c as int < 0x7F || 0xA0 <= c as int) && c as int != 0x2028 && c as int != 0x2029
    ensures IsSafe(s) ==> forall i :: 0 <= i < |Bounded(s)| ==>
            (Bounded(s)[i] == '`' <==> i == 0 || i == |Bounded(s)| - 1)
    ensures !IsSafe(s) ==> forall i :: 0 <= i < |Bounded(s)| && Bounded(s)[i] == '`' ==>
            i > 0 && Bounded(s)[i - 1] == '\\'
  {
    var safe, body := IsSafe(s), RenderAll(Shown(s), IsSafe(s));
    if safe {
      assert IsSafe(Shown(s));
    }
    RenderedCharacters(Shown(s), safe);
    if safe {
      assert Bounded(s) == "`" + body + "`";
      forall i | 0 < i < |Bounded(s)| - 1
        ensures Bounded(s)[i] != '`'
      {
        assert Bounded(s)[i] == body[i - 1];
      }
    } else {
      assert Bounded(s) == body;
    }
  }

  function Value(s: string): string {
    if s == "" then UNKNOWN else Bounded(s)
  }

  method IdentityValue(s: string) returns (out: string)
    ensures out == Value(s)
  {
    if s == "" {
      return UNKNOWN;
    }
    out := RenderBounded(s);
  }

  lemma MarkerIsPlain()
    ensures Unescape(UNKNOWN) == Some(UNKNOWN) && IsSafe(UNKNOWN)
  {
    assert UNKNOWN == "未" + ("取" + ("得" + ""));
    UnescapeFragment('得', "");
    UnescapeFragment('取', "得" + "");
    UnescapeFragment('未', "取" + ("得" + ""));
  }

  /** The unknown marker means missing data and nothing else. */
  lemma UnknownIffEmpty(s: string)
    ensures Value(s) == UNKNOWN <==> s == ""
    ensures Units(Value(s)) <= FIELD_LIMIT
  {
    BoundedSize(s);
    UnitsBounds(UNKNOWN);
    if s != "" && Bounded(s) == UNKNOWN {
      ModeIsVisible(s);
      FieldReadsBack(s);
      assert Unescape(UNKNOWN) == Some(UNKNOWN) by {
        MarkerIsPlain();
      }
    }
  }
}
