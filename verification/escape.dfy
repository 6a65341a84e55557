/**
  `escapeHtml` of the page script (app.js, lines 72-79): five chained
  `replaceAll` calls, `&` first, so that no entity produced by a later step is
  escaped again.
 */
module Escape {
  import opened JsString

  const Amp := "&amp;"
  const Lt := "&lt;"
  const Gt := "&gt;"
  const Quot := "&quot;"
  const Apos := "&#039;"

  /** The characters that would end a text node or an attribute value. */
  predicate IsMarkup(c: char) {
    c == '<' || c == '>' || c == '"' || c == '\''
  }

  predicate IsSpecial(c: char) {
    c == '&' || IsMarkup(c)
  }

  /** No character of `s` can open a tag or close an attribute value. */
  predicate HtmlSafe(s: string) {
    forall k :: 0 <= k < |s| ==> !IsMarkup(s[k])
  }

  predicate Plain(s: string) {
    forall k :: 0 <= k < |s| ==> !IsSpecial(s[k])
  }

  /** `s` holds one of the five entities at position `i`. */
  predicate EntityAt(s: string, i: nat)
    requires i <= |s|
  {
    var t := s[i..];
    HasPrefix(t, Amp) || HasPrefix(t, Lt) || HasPrefix(t, Gt) || HasPrefix(t, Quot) || HasPrefix(t, Apos)
  }

  /** `String(str).replaceAll("&", "&amp;").replaceAll("<", "&lt;").replaceAll(">", "&gt;")
      .replaceAll('"', "&quot;").replaceAll("'", "&#039;")`. */
  function EscapeHtml(s: string): (r: string)
    ensures r == EscapeEach(s)
    ensures HtmlSafe(r)
    ensures r == "" <==> s == ""
    ensures Plain(s) ==> r == s
  {
    ChainIsEach(s);
    ReplaceAll(ReplaceAll(ReplaceAll(ReplaceAll(ReplaceAll(s, "&", Amp), "<", Lt), ">", Gt), "\"", Quot), "'", Apos)
  }

  /** The escape of one character. */
  function EscapeChar(c: char): string {
    match c
    case '&' => Amp
    case '<' => Lt
    case '>' => Gt
    case '"' => Quot
    case '\'' => Apos
    case _ => [c]
  }

  /** The reference meaning of the chain: every character replaced by its own escape. */
  function EscapeEach(s: string): (r: string)
    ensures HtmlSafe(r)
    ensures |r| >= |s|
    ensures r == "" <==> s == ""
    ensures Plain(s) ==> r == s
  {
    if s == [] then []
    else
      var head, tail := EscapeChar(s[0]), EscapeEach(s[1..]);
      SafeConcat(head, tail);
      assert Plain(s) ==> Plain(s[1..]) && head == [s[0]] by {
        if Plain(s) {
          assert !IsSpecial(s[0]);
          PlainTail(s);
        }
      }
      head + tail
  }

  lemma SafeConcat(a: string, b: string)
    requires HtmlSafe(a) && HtmlSafe(b)
    ensures HtmlSafe(a + b)
  {
    forall k | 0 <= k < |a + b| ensures !IsMarkup((a + b)[k]) {
      if k >= |a| {
        assert (a + b)[k] == b[k - |a|];
      }
    }
  }

  lemma PlainTail(s: string)
    requires s != [] && Plain(s)
    ensures Plain(s[1..])
  {
    forall k | 0 <= k < |s| - 1 ensures !IsSpecial(s[1..][k]) {
      assert s[1..][k] == s[k + 1];
    }
  }

  /** The five passes as per-character substitutions. */
  function SubstChain(s: string): string {
    Subst(Subst(Subst(Subst(Subst(s, '&', Amp), '<', Lt), '>', Gt), '"', Quot), '\'', Apos)
  }

  lemma ReplaceChainIsSubstChain(s: string)
    ensures ReplaceAll(ReplaceAll(ReplaceAll(ReplaceAll(ReplaceAll(s, "&", Amp), "<", Lt), ">", Gt), "\"", Quot), "'", Apos)
            == SubstChain(s)
  {
    var s1 := Subst(s, '&', Amp);
    var s2 := Subst(s1, '<', Lt);
    var s3 := Subst(s2, '>', Gt);
    var s4 := Subst(s3, '"', Quot);
    ReplaceAllOneChar(s, '&', Amp);
    ReplaceAllOneChar(s1, '<', Lt);
    ReplaceAllOneChar(s2, '>', Gt);
    ReplaceAllOneChar(s3, '"', Quot);
    ReplaceAllOneChar(s4, '\'', Apos);
  }

  lemma SubstChainConcat(a: string, b: string)
    ensures SubstChain(a + b) == SubstChain(a) + SubstChain(b)
  {
    var a1, b1 := Subst(a, '&', Amp), Subst(b, '&', Amp);
    var a2, b2 := Subst(a1, '<', Lt), Subst(b1, '<', Lt);
    var a3, b3 := Subst(a2, '>', Gt), Subst(b2, '>', Gt);
    var a4, b4 := Subst(a3, '"', Quot), Subst(b3, '"', Quot);
    SubstConcat(a, b, '&', Amp);
    SubstConcat(a1, b1, '<', Lt);
    SubstConcat(a2, b2, '>', Gt);
    SubstConcat(a3, b3, '"', Quot);
    SubstConcat(a4, b4, '\'', Apos);
  }

  lemma SubstSingle(c: char, x: char, rep: string)
    ensures Subst([c], x, rep) == if c == x then rep else [c]
  {
    assert [c][1..] == [];
  }

  /** The passes after the one that wrote `e` leave it alone. */
  lemma SubstSkips(e: string)
    requires '<' !in e && '>' !in e && '"' !in e && '\'' !in e
    ensures Subst(Subst(Subst(Subst(e, '<', Lt), '>', Gt), '"', Quot), '\'', Apos) == e
  {
  }

  /** Because `&` goes first, a later pass never touches an entity an earlier one wrote. */
  lemma SubstChainOne(c: char)
    ensures SubstChain([c]) == EscapeChar(c)
  {
    var s1 := Subst([c], '&', Amp);
    SubstSingle(c, '&', Amp);
    if c == '&' {
      assert s1 == Amp;
      SubstSkips(Amp);
    } else {
      var s2 := Subst(s1, '<', Lt);
      SubstSingle(c, '<', Lt);
      if c == '<' {
        assert s2 == Lt;
        assert '>' !in Lt && '"' !in Lt && '\'' !in Lt;
      } else {
        var s3 := Subst(s2, '>', Gt);
        SubstSingle(c, '>', Gt);
        if c == '>' {
          assert s3 == Gt;
          assert '"' !in Gt && '\'' !in Gt;
        } else {
          var s4 := Subst(s3, '"', Quot);
          SubstSingle(c, '"', Quot);
          SubstSingle(c, '\'', Apos);
          if c == '"' {
            assert s4 == Quot;
            assert '\'' !in Quot;
          }
        }
      }
    }
  }

  lemma {:induction false} ChainIsEach(s: string)
    ensures ReplaceAll(ReplaceAll(ReplaceAll(ReplaceAll(ReplaceAll(s, "&", Amp), "<", Lt), ">", Gt), "\"", Quot), "'", Apos)
            == EscapeEach(s)
  {
    ReplaceChainIsSubstChain(s);
    SubstChainIsEach(s);
  }

  lemma {:induction false} SubstChainIsEach(s: string)
    ensures SubstChain(s) == EscapeEach(s)
  {
    if s != [] {
      assert s == [s[0]] + s[1..];
      SubstChainConcat([s[0]], s[1..]);
      SubstChainOne(s[0]);
      SubstChainIsEach(s[1..]);
    }
  }

  /** Decoding, scanning left to right: each of the five entities becomes its
      character again and everything else is copied. */
  function Unescape(s: string): string
    decreases |s|
  {
    if s == [] then []
    else if HasPrefix(s, Amp) then "&" + Unescape(s[|Amp|..])
    else if HasPrefix(s, Lt) then "<" + Unescape(s[|Lt|..])
    else if HasPrefix(s, Gt) then ">" + Unescape(s[|Gt|..])
    else if HasPrefix(s, Quot) then "\"" + Unescape(s[|Quot|..])
    else if HasPrefix(s, Apos) then "'" + Unescape(s[|Apos|..])
    else [s[0]] + Unescape(s[1..])
  }

  lemma UnescapeStep(c: char, t: string)
    ensures Unescape(EscapeChar(c) + t) == [c] + Unescape(t)
  {
    var e := EscapeChar(c);
    var s := e + t;
    assert s[..|e|] == e;
    assert s[|e|..] == t;
    if !IsSpecial(c) {
      assert s[0] == c;
      assert !HasPrefix(s, Amp) && !HasPrefix(s, Lt) && !HasPrefix(s, Gt)
             && !HasPrefix(s, Quot) && !HasPrefix(s, Apos) by {
        if |s| >= 4 {
          assert s[..4][0] == c;
        }
        if |s| >= 5 {
          assert s[..5][0] == c;
        }
        if |s| >= 6 {
          assert s[..6][0] == c;
        }
      }
      assert s[1..] == t;
    } else if c == '<' {
      assert !HasPrefix(s, Amp) by {
        if |s| >= 5 {
          assert s[..5][1] == 'l';
        }
      }
    } else if c == '>' {
      assert !HasPrefix(s, Amp) by {
        if |s| >= 5 {
          assert s[..5][1] == 'g';
        }
      }
      assert !HasPrefix(s, Lt) by {
        assert s[..4][1] == 'g';
      }
    } else if c == '"' {
      assert !HasPrefix(s, Amp) && !HasPrefix(s, Lt) && !HasPrefix(s, Gt) by {
        assert s[..5][1] == 'q' && s[..4][1] == 'q';
      }
    } else if c == '\'' {
      assert !HasPrefix(s, Amp) && !HasPrefix(s, Lt) && !HasPrefix(s, Gt) && !HasPrefix(s, Quot) by {
        assert s[..5][1] == '#' && s[..4][1] == '#' && s[..6][1] == '#';
      }
    }
  }

  /** Decoding undoes the escape exactly. */
  lemma {:induction false} UnescapeEscape(s: string)
    ensures Unescape(EscapeHtml(s)) == s
  {
    EachRoundTrip(s);
  }

  lemma {:induction false} EachRoundTrip(s: string)
    ensures Unescape(EscapeEach(s)) == s
  {
    if s != [] {
      UnescapeStep(s[0], EscapeEach(s[1..]));
      EachRoundTrip(s[1..]);
      assert s == [s[0]] + s[1..];
    }
  }

  /** Distinct strings never escape to the same text. */
  lemma EscapeInjective(a: string, b: string)
    requires EscapeHtml(a) == EscapeHtml(b)
    ensures a == b
  {
    UnescapeEscape(a);
    UnescapeEscape(b);
  }

  /** Every `&` of `r` begins one of the five entities. */
  predicate AmpersandsBegin(r: string) {
    forall i :: 0 <= i < |r| && r[i] == '&' ==> EntityAt(r, i)
  }

  /** Every `&` in the output begins one of the five entities, so none of the
      input's own ampersands is left bare. */
  lemma {:induction false} AmpersandsBeginEntities(s: string)
    ensures AmpersandsBegin(EscapeHtml(s))
  {
    assert EscapeHtml(s) == EscapeEach(s);
    EachAmpersands(s);
  }

  lemma EntityHead(c: char, t: string)
    requires IsSpecial(c)
    ensures EntityAt(EscapeChar(c) + t, 0)
  {
    var r := EscapeChar(c) + t;
    assert r[0..] == r;
    assert r[..|EscapeChar(c)|] == EscapeChar(c);
  }

  lemma EntityShift(head: string, tail: string, j: nat)
    requires j <= |tail| && EntityAt(tail, j)
    ensures EntityAt(head + tail, |head| + j)
  {
    assert (head + tail)[|head| + j..] == tail[j..];
  }

  lemma {:induction false} EachAmpersands(s: string)
    ensures AmpersandsBegin(EscapeEach(s))
  {
    if s != [] {
      EachAmpersands(s[1..]);
      AmpersandsCons(s[0], EscapeEach(s[1..]));
      assert EscapeEach(s) == EscapeChar(s[0]) + EscapeEach(s[1..]);
    }
  }

  /** Prepending the escape of one character keeps every `&` at the head of an entity. */
  lemma AmpersandsCons(c: char, tail: string)
    requires AmpersandsBegin(tail)
    ensures AmpersandsBegin(EscapeChar(c) + tail)
  {
    var head := EscapeChar(c);
    var r := head + tail;
    forall i | 0 <= i < |r| && r[i] == '&' ensures EntityAt(r, i) {
      if i < |head| {
        assert i == 0 && IsSpecial(c);
        EntityHead(c, tail);
      } else {
        assert tail[i - |head|] == r[i];
        EntityShift(head, tail, i - |head|);
      }
    }
  }
}
