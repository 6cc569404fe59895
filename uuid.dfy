/**
 * The fallback session-id generator of the ChatNickname hook (assets/js/app.js:111-116).
 * When `crypto.randomUUID` is missing, the hook rewrites the template
 * `xxxxxxxx-xxxx-4xxx-yxxx-xxxxxxxxxxxx` one character at a time: every `x` becomes the
 * hex digit of a fresh draw `r = Math.random() * 16 | 0`, every `y` the hex digit of
 * `r & 0x3 | 0x8`. Here the draws are supplied as a sequence of nibbles, consumed left to
 * right in the order `String.prototype.replace` visits the matches.
 */
module Uuid {

  /** One draw `Math.random() * 16 | 0`: an integer in 0..15. */
  type Nibble = x: int | 0 <= x < 16

  /** The template string of the fallback generator. */
  const Template: string := "xxxxxxxx-xxxx-4xxx-yxxx-xxxxxxxxxxxx"

  /** The characters the pattern `/[xy]/g` matches. */
  predicate IsPlaceholder(c: char) {
    c == 'x' || c == 'y'
  }

  /** The digits `Number.prototype.toString(16)` produces. */
  predicate IsLowerHex(c: char) {
    '0' <= c <= '9' || 'a' <= c <= 'f'
  }

  /** `v.toString(16)` for a value below 16: a single lowercase hex digit. */
  function HexDigit(v: Nibble): (c: char)
    ensures IsLowerHex(c)
    ensures ('0' <= c <= '9') == (v < 10)
    ensures c == "0123456789abcdef"[v]
  {
    if v < 10 then ('0' as int + v) as char else ('a' as int + v - 10) as char
  }

  /** The value of a lowercase hex digit; the inverse of HexDigit. */
  function HexValue(c: char): (v: Nibble)
    requires IsLowerHex(c)
    ensures HexDigit(v) == c
  {
    if c <= '9' then c as int - '0' as int else c as int - 'a' as int + 10
  }

  /** The `y` branch of the callback: `r & 0x3 | 0x8`, the RFC 4122 variant bits `10`. */
  function Variant(r: Nibble): (v: Nibble)
    ensures 8 <= v <= 11
    ensures v % 4 == r % 4
  {
    ((r as bv8 & 3) | 8) as int
  }

  /** What the callback returns for the placeholder `c` and the draw `r`. */
  function Substitute(c: char, r: Nibble): (d: char)
    requires IsPlaceholder(c)
    ensures Fits(c, d) && IsLowerHex(d)
    ensures HexValue(d) == (if c == 'x' then r else Variant(r))
  {
    if c == 'x' then HexDigit(r) else HexDigit(Variant(r))
  }

  /** The number of matches of `/[xy]/g` in `t`, i.e. the number of draws the rewrite uses. */
  function Placeholders(t: string): nat
  {
    if t == [] then 0 else (if IsPlaceholder(t[0]) then 1 else 0) + Placeholders(t[1..])
  }

  /** The character `c` may stand where the template has `tc`. */
  predicate Fits(tc: char, c: char) {
    if tc == 'x' then IsLowerHex(c)
    else if tc == 'y' then c in "89ab"
    else c == tc
  }

  /** `s` has the layout of template `t`, position by position. */
  predicate Matches(t: string, s: string) {
    |s| == |t| && forall i :: 0 <= i < |t| ==> Fits(t[i], s[i])
  }

  /**
   * `t.replace(/[xy]/g, callback)` where the callback's successive draws are `rs`.
   * The result keeps the template's layout.
   */
  function Replace(t: string, rs: seq<Nibble>): (s: string)
    requires |rs| == Placeholders(t)
    ensures Matches(t, s)
  {
    if t == [] then []
    else if IsPlaceholder(t[0]) then [Substitute(t[0], rs[0])] + Replace(t[1..], rs[1..])
    else [t[0]] + Replace(t[1..], rs)
  }

  lemma MatchesTail(t: string, s: string)
    requires t != [] && Matches(t, s)
    ensures Matches(t[1..], s[1..])
  {
    forall i | 0 <= i < |t| - 1 ensures Fits(t[1..][i], s[1..][i]) {
      assert Fits(t[i + 1], s[i + 1]);
    }
  }

  /** Reads the draws back from a string with the layout of `t` (the variant slot yields its low two bits). */
  function Extract(t: string, s: string): (rs: seq<Nibble>)
    requires Matches(t, s)
    ensures |rs| == Placeholders(t)
  {
    if t == [] then []
    else
      MatchesTail(t, s);
      assert Fits(t[0], s[0]);
      ExtractHead(t[0], s[0]) + Extract(t[1..], s[1..])
  }

  /** The draws one template character reads back: one for a placeholder, none otherwise. */
  function ExtractHead(tc: char, c: char): seq<Nibble>
    requires Fits(tc, c)
  {
    if tc == 'x' then [HexValue(c)]
    else if tc == 'y' then [HexValue(c) - 8]
    else []
  }

  /** A substituted placeholder reads back as its surviving draw. */
  lemma ExtractHeadSubstitute(tc: char, r: Nibble)
    requires IsPlaceholder(tc)
    ensures Fits(tc, Substitute(tc, r))
    ensures ExtractHead(tc, Substitute(tc, r)) == [if tc == 'x' then r else r % 4]
  {
    if tc == 'y' {
      assert HexValue(HexDigit(Variant(r))) == Variant(r);
    } else {
      assert HexValue(HexDigit(r)) == r;
    }
  }

  /** The part of the draws `rs` that survives the rewrite: a variant slot keeps only `r % 4`. */
  function Canonical(t: string, rs: seq<Nibble>): (cs: seq<Nibble>)
    requires |rs| == Placeholders(t)
    ensures |cs| == |rs|
  {
    if t == [] then []
    else if t[0] == 'x' then [rs[0]] + Canonical(t[1..], rs[1..])
    else if t[0] == 'y' then [rs[0] % 4] + Canonical(t[1..], rs[1..])
    else Canonical(t[1..], rs)
  }

  /** Every string with the layout of `t` is the rewrite of the draws read back from it. */
  lemma {:induction false} ReplaceExtract(t: string, s: string)
    requires Matches(t, s)
    ensures Replace(t, Extract(t, s)) == s
  {
    if t != [] {
      MatchesTail(t, s);
      ReplaceExtract(t[1..], s[1..]);
      assert Fits(t[0], s[0]);
      var rs := Extract(t, s);
      var head := ExtractHead(t[0], s[0]);
      assert rs == head + Extract(t[1..], s[1..]);
      if IsPlaceholder(t[0]) {
        SubstituteExtractHead(t[0], s[0]);
        assert rs[1..] == Extract(t[1..], s[1..]);
        assert Replace(t, rs) == [s[0]] + s[1..];
      } else {
        assert rs == Extract(t[1..], s[1..]);
        assert Replace(t, rs) == [s[0]] + s[1..];
      }
    }
  }

  /** Substituting the draw a placeholder reads back gives the character back. */
  lemma SubstituteExtractHead(tc: char, c: char)
    requires IsPlaceholder(tc) && Fits(tc, c)
    ensures |ExtractHead(tc, c)| == 1 && Substitute(tc, ExtractHead(tc, c)[0]) == c
  {
    if tc == 'y' {
      assert HexValue(c) >= 8;
      assert Variant(HexValue(c) - 8) == HexValue(c);
    }
  }

  /** Reading back a rewrite returns exactly the surviving part of the draws. */
  lemma {:induction false} ExtractReplace(t: string, rs: seq<Nibble>)
    requires |rs| == Placeholders(t)
    ensures Extract(t, Replace(t, rs)) == Canonical(t, rs)
  {
    if t != [] {
      var s := Replace(t, rs);
      var rest := if IsPlaceholder(t[0]) then rs[1..] else rs;
      assert s[1..] == Replace(t[1..], rest);
      ExtractReplace(t[1..], rest);
      MatchesTail(t, s);
      if IsPlaceholder(t[0]) {
        ExtractHeadSubstitute(t[0], rs[0]);
      }
    }
  }

  /** Two runs of the rewrite agree exactly when the surviving parts of their draws agree. */
  lemma ReplaceInjective(t: string, a: seq<Nibble>, b: seq<Nibble>)
    requires |a| == Placeholders(t) && |b| == Placeholders(t)
    ensures Replace(t, a) == Replace(t, b) <==> Canonical(t, a) == Canonical(t, b)
  {
    ExtractReplace(t, a);
    ExtractReplace(t, b);
    if Canonical(t, a) == Canonical(t, b) {
      ReplaceExtract(t, Replace(t, a));
      ReplaceExtract(t, Replace(t, b));
    }
  }

  lemma {:induction false} PlaceholdersAppend(a: string, b: string)
    ensures Placeholders(a + b) == Placeholders(a) + Placeholders(b)
  {
    if a != [] {
      assert (a + b)[0] == a[0];
      assert (a + b)[1..] == a[1..] + b;
      PlaceholdersAppend(a[1..], b);
    } else {
      assert a + b == b;
    }
  }

  lemma {:induction false} CanonicalAppend(a: string, b: string, rs: seq<Nibble>)
    requires Placeholders(a + b) == Placeholders(a) + Placeholders(b)
    requires |rs| == Placeholders(a) + Placeholders(b)
    ensures Canonical(a + b, rs) == Canonical(a, rs[..Placeholders(a)]) + Canonical(b, rs[Placeholders(a)..])
  {
    PlaceholdersAppend(a, b);
    if a != [] {
      assert (a + b)[0] == a[0];
      assert (a + b)[1..] == a[1..] + b;
      PlaceholdersAppend(a[1..], b);
      if IsPlaceholder(a[0]) {
        CanonicalAppend(a[1..], b, rs[1..]);
        assert rs[1..][..Placeholders(a[1..])] == rs[..Placeholders(a)][1..];
        assert rs[1..][Placeholders(a[1..])..] == rs[Placeholders(a)..];
      } else {
        CanonicalAppend(a[1..], b, rs);
      }
    } else {
      assert a + b == b;
    }
  }

  lemma {:induction false} CanonicalWithoutVariant(t: string, rs: seq<Nibble>)
    requires |rs| == Placeholders(t)
    requires 'y' !in t
    ensures Canonical(t, rs) == rs
  {
    if t != [] {
      assert t[0] in t;
      assert forall c :: c in t[1..] ==> c in t;
      if IsPlaceholder(t[0]) {
        CanonicalWithoutVariant(t[1..], rs[1..]);
      } else {
        CanonicalWithoutVariant(t[1..], rs);
      }
    }
  }

  /** The template, character by character. */
  function TemplateChar(i: int): char {
    if i == 8 || i == 13 || i == 18 || i == 23 then '-'
    else if i == 14 then '4'
    else if i == 19 then 'y'
    else 'x'
  }

  lemma TemplateAt(i: int)
    requires 0 <= i < 36
    ensures |Template| == 36 && Template[i] == TemplateChar(i)
  {
    assert i == 0 || i == 1 || i == 2 || i == 3 || i == 4 || i == 5 || i == 6 || i == 7 || i == 8
      || i == 9 || i == 10 || i == 11 || i == 12 || i == 13 || i == 14 || i == 15 || i == 16
      || i == 17 || i == 18 || i == 19 || i == 20 || i == 21 || i == 22 || i == 23 || i == 24
      || i == 25 || i == 26 || i == 27 || i == 28 || i == 29 || i == 30 || i == 31 || i == 32
      || i == 33 || i == 34 || i == 35;
  }

  /** `t` is the template, position by position. */
  predicate HasTemplateLayout(t: string) {
    |t| == 36 && forall j :: 0 <= j < 36 ==> t[j] == TemplateChar(j)
  }

  lemma TemplateLayout()
    ensures HasTemplateLayout(Template)
  {
    forall j | 0 <= j < 36 ensures Template[j] == TemplateChar(j) {
      TemplateAt(j);
    }
  }

  /** The number of placeholders at template positions `i` and beyond. */
  function SlotsFrom(i: int): int {
    if i <= 8 then 31 - i
    else if i <= 13 then 32 - i
    else if i <= 14 then 33 - i
    else if i <= 18 then 34 - i
    else if i <= 23 then 35 - i
    else 36 - i
  }

  lemma {:induction false} PlaceholdersSuffix(t: string, i: int)
    requires HasTemplateLayout(t)
    requires 0 <= i <= 36
    ensures Placeholders(t[i..]) == SlotsFrom(i)
    decreases 36 - i
  {
    if i < 36 {
      PlaceholdersSuffix(t, i + 1);
      assert t[i..][1..] == t[i + 1..];
      assert t[i..][0] == t[i];
    } else {
      assert t[i..] == [];
    }
  }

  /** The fallback generator makes 31 draws: 30 for the `x`s and one for the `y` at position 19. */
  lemma TemplatePlaceholders()
    ensures Placeholders(Template) == 31
  {
    TemplateLayout();
    var t := seq(36, TemplateChar);
    assert Template == t;
    PlaceholdersSuffix(t, 0);
    assert t[0..] == t;
  }

  /**
   * The layout a version-4 UUID has in its text form (RFC 9562, section 4 and section 5.4):
   * 36 characters, hyphens at 8, 13, 18 and 23, the version digit `4` at 14, a variant
   * digit `8`, `9`, `a` or `b` at 19, and lowercase hex digits everywhere else.
   */
  predicate IsVersion4Uuid(s: string) {
    && |s| == 36
    && s[8] == '-' && s[13] == '-' && s[18] == '-' && s[23] == '-'
    && s[14] == '4'
    && s[19] in "89ab"
    && forall i :: 0 <= i < 36 && i != 8 && i != 13 && i != 14 && i != 18 && i != 19 && i != 23
         ==> IsLowerHex(s[i])
  }

  /** A string has the template's layout exactly when it is a version-4 UUID. */
  lemma TemplateLayoutIsVersion4(s: string)
    ensures Matches(Template, s) <==> IsVersion4Uuid(s)
  {
    TemplateAt(0);
    if Matches(Template, s) {
      forall i | 0 <= i < 36 ensures Fits(TemplateChar(i), s[i]) {
        TemplateAt(i);
      }
      assert Fits(TemplateChar(8), s[8]) && Fits(TemplateChar(13), s[13]);
      assert Fits(TemplateChar(18), s[18]) && Fits(TemplateChar(23), s[23]);
      assert Fits(TemplateChar(14), s[14]) && Fits(TemplateChar(19), s[19]);
    }
    if IsVersion4Uuid(s) {
      forall i | 0 <= i < |Template| ensures Fits(Template[i], s[i]) {
        TemplateAt(i);
      }
    }
  }

  /** The draw template position `i` consumes: the number of placeholders before it. */
  function Slot(i: int): int {
    31 - SlotsFrom(i)
  }

  /** Position `i` of the filled template. */
  function FillAt(draws: seq<Nibble>, i: int): char
    requires |draws| == 31 && 0 <= i < 36
  {
    var c := TemplateChar(i);
    if IsPlaceholder(c) then Substitute(c, draws[Slot(i)]) else c
  }

  /** The fallback generator: the template filled from 31 draws, written position by position. */
  function FillTemplate(draws: seq<Nibble>): (id: string)
    requires |draws| == 31
    ensures IsVersion4Uuid(id)
  {
    var id := seq(36, i requires 0 <= i < 36 => FillAt(draws, i));
    var v := Variant(draws[15]);
    assert id[19] == HexDigit(v);
    assert v == 8 || v == 9 || v == 10 || v == 11;
    id
  }

  /** Position `i` of a rewrite is the substitution of the draw numbered by the placeholders before `i`. */
  lemma {:induction false} ReplaceAt(t: string, rs: seq<Nibble>, i: int)
    requires |rs| == Placeholders(t) && 0 <= i < |t|
    ensures |Replace(t, rs)| == |t|
    ensures IsPlaceholder(t[i]) ==>
              Placeholders(t[..i]) < |rs| && Replace(t, rs)[i] == Substitute(t[i], rs[Placeholders(t[..i])])
    ensures !IsPlaceholder(t[i]) ==> Replace(t, rs)[i] == t[i]
    decreases i
  {
    if i == 0 {
      assert t[..0] == [];
    } else {
      var p := if IsPlaceholder(t[0]) then 1 else 0;
      var rest := if IsPlaceholder(t[0]) then rs[1..] else rs;
      PrefixPlaceholders(t, i);
      ReplaceAt(t[1..], rest, i - 1);
      ReplaceShift(t, rs, i);
      if IsPlaceholder(t[i]) {
        assert rs[Placeholders(t[..i])] == rest[Placeholders(t[1..][..i - 1])];
      }
    }
  }

  lemma PrefixPlaceholders(t: string, i: int)
    requires 0 < i <= |t|
    ensures Placeholders(t[..i]) == (if IsPlaceholder(t[0]) then 1 else 0) + Placeholders(t[1..][..i - 1])
  {
    assert t[..i][0] == t[0] && t[..i][1..] == t[1..][..i - 1];
  }

  lemma ReplaceShift(t: string, rs: seq<Nibble>, i: int)
    requires |rs| == Placeholders(t) && 0 < i < |t|
    ensures Replace(t, rs)[i] == Replace(t[1..], if IsPlaceholder(t[0]) then rs[1..] else rs)[i - 1]
  {
  }

  lemma LayoutFill(t: string, draws: seq<Nibble>)
    requires HasTemplateLayout(t) && Placeholders(t) == 31 && |draws| == 31
    ensures Replace(t, draws) == FillTemplate(draws)
  {
    forall i | 0 <= i < 36 ensures Replace(t, draws)[i] == FillTemplate(draws)[i] {
      LayoutFillAt(t, draws, i);
    }
  }

  lemma LayoutFillAt(t: string, draws: seq<Nibble>, i: int)
    requires HasTemplateLayout(t) && Placeholders(t) == 31 && |draws| == 31 && 0 <= i < 36
    ensures |Replace(t, draws)| == 36 && Replace(t, draws)[i] == FillAt(draws, i)
  {
    ReplaceAt(t, draws, i);
    assert t[..i] + t[i..] == t;
    PlaceholdersAppend(t[..i], t[i..]);
    PlaceholdersSuffix(t, i);
    assert Placeholders(t[..i]) == Slot(i);
  }

  /** The position-by-position fill is the rewrite `Template.replace(/[xy]/g, …)` itself. */
  lemma FillTemplateIsReplace(draws: seq<Nibble>)
    requires |draws| == 31
    ensures Placeholders(Template) == 31 && Replace(Template, draws) == FillTemplate(draws)
  {
    TemplateLayout();
    TemplatePlaceholders();
    LayoutFill(Template, draws);
  }

  /** Every version-4 UUID, and nothing else, is an output of the fallback generator. */
  lemma FillTemplateImage(s: string)
    ensures IsVersion4Uuid(s) <==> exists draws: seq<Nibble> :: |draws| == 31 && FillTemplate(draws) == s
  {
    if IsVersion4Uuid(s) {
      TemplateLayoutIsVersion4(s);
      TemplatePlaceholders();
      var draws := Extract(Template, s);
      ReplaceExtract(Template, s);
      FillTemplateIsReplace(draws);
      assert FillTemplate(draws) == s;
    }
  }

  /**
   * The generator keeps 122 of the 124 drawn bits: two runs give the same id exactly when
   * their draws agree everywhere except in the high two bits of draw 15, the variant slot.
   */
  lemma FillTemplateInjective(a: seq<Nibble>, b: seq<Nibble>)
    requires |a| == 31 && |b| == 31
    ensures FillTemplate(a) == FillTemplate(b) <==>
              a[..15] == b[..15] && a[15] % 4 == b[15] % 4 && a[16..] == b[16..]
  {
    var t := seq(36, TemplateChar);
    PlaceholdersSuffix(t, 0);
    assert t[0..] == t;
    LayoutFill(t, a);
    LayoutFill(t, b);
    LayoutInjective(t, a, b);
  }

  lemma LayoutInjective(t: string, a: seq<Nibble>, b: seq<Nibble>)
    requires HasTemplateLayout(t) && Placeholders(t) == 31
    requires |a| == 31 && |b| == 31
    ensures Replace(t, a) == Replace(t, b) <==>
              a[..15] == b[..15] && a[15] % 4 == b[15] % 4 && a[16..] == b[16..]
  {
    ReplaceInjective(t, a, b);
    CanonicalShape(t, a);
    CanonicalShape(t, b);
    var ca, cb := Canonical(t, a), Canonical(t, b);
    if ca == cb {
      assert a[..15] == ca[..15] && b[..15] == cb[..15];
      assert a[16..] == ca[16..] && b[16..] == cb[16..];
      assert a[15] % 4 == ca[15] && b[15] % 4 == cb[15];
    }
    if a[..15] == b[..15] && a[15] % 4 == b[15] % 4 && a[16..] == b[16..] {
      assert ca == cb;
    }
  }

  lemma CanonicalShape(t: string, rs: seq<Nibble>)
    requires HasTemplateLayout(t)
    requires Placeholders(t) == 31 && |rs| == 31
    ensures Canonical(t, rs) == rs[..15] + [rs[15] % 4] + rs[16..]
  {
    var head, y, tail := t[..19], t[19..20], t[20..];
    assert t == head + y + tail;
    assert y == "y";
    PlaceholdersSuffix(t, 19);
    PlaceholdersSuffix(t, 20);
    PlaceholdersAppend(head, t[19..]);
    assert t[19..] == y + tail;
    PlaceholdersAppend(y, tail);
    PlaceholdersAppend(head, y);
    PlaceholdersAppend(head + y, tail);
    assert Placeholders(head) == 15 && Placeholders(tail) == 15;
    CanonicalAppend(head + y, tail, rs);
    CanonicalAppend(head, y, rs[..16]);
    forall j | 0 <= j < |head| ensures head[j] != 'y' {
      assert head[j] == t[j];
    }
    forall j | 0 <= j < |tail| ensures tail[j] != 'y' {
      assert tail[j] == t[j + 20];
    }
    CanonicalWithoutVariant(head, rs[..15]);
    CanonicalWithoutVariant(tail, rs[16..]);
    assert rs[..16][..15] == rs[..15];
    assert rs[..16][15..] == [rs[15]];
    assert Canonical(y, [rs[15]]) == [rs[15] % 4];
  }
}
