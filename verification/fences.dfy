/**
  Markdown code-fence removal applied to the model's reply before it is handed
  to `JSON.parse` (netlify/functions/recommend.js, line 109).
 */
module Fences {
  import opened JsString

  const Tick: char := '`'
  const Fence := "```"
  const JsonFence := "```json"

  /** `text.replace(/```json/g, "").replace(/```/g, "").trim()`. The result holds no
      fence (every run of backticks left is shorter than three) and is trimmed. */
  function StripFences(text: string): (r: string)
    ensures Free(r, Fence)
    ensures IsTrimmed(r)
  {
    var unfenced := ReplaceAll(ReplaceAll(text, JsonFence, ""), Fence, "");
    RemovingFencesLeavesNone(ReplaceAll(text, JsonFence, ""));
    TrimKeepsFree(unfenced, Fence);
    Trim(unfenced)
  }

  /** A non-backtick first character survives the fence removal in place. */
  lemma HeadKept(s: string)
    requires s != [] && s[0] != Tick
    ensures var r := ReplaceAll(s, Fence, ""); r != [] && r[0] == s[0]
  {
    assert !HasPrefix(s, Fence) by {
      if |Fence| <= |s| {
        assert s[..|Fence|][0] == s[0];
      }
    }
  }

  /** Removing every "```" left to right can never join backticks into a new fence. */
  lemma {:induction false} RemovingFencesLeavesNone(s: string)
    ensures Free(ReplaceAll(s, Fence, ""), Fence)
    decreases |s|
  {
    var r := ReplaceAll(s, Fence, "");
    if s == [] {
    } else if HasPrefix(s, Fence) {
      RemovingFencesLeavesNone(s[|Fence|..]);
      assert r == ReplaceAll(s[|Fence|..], Fence, "");
    } else if |s| < |Fence| {
      assert Free(s, Fence);
      ReplaceAllAbsent(s, Fence, "");
    } else {
      var tail := ReplaceAll(s[1..], Fence, "");
      assert r == [s[0]] + tail;
      RemovingFencesLeavesNone(s[1..]);
      if s[0] == Tick {
        if s[1] != Tick {
          HeadKept(s[1..]);
          assert r[1] != Tick;
        } else {
          assert s[2] != Tick by {
            assert s[..|Fence|] != Fence;
          }
          assert !HasPrefix(s[1..], Fence) by {
            assert s[1..][1] == s[2];
            if |Fence| <= |s[1..]| {
              assert s[1..][..|Fence|][1] == s[2];
            }
          }
          assert s[1..][1..] == s[2..];
          assert tail == [s[1]] + ReplaceAll(s[2..], Fence, "");
          HeadKept(s[2..]);
          assert r[2] != Tick;
        }
      }
      assert r[0] != Tick || r[1] != Tick || r[2] != Tick;
      ConsKeepsFree(r, tail);
    }
  }

  /** A string whose tail holds no fence and which does not start with one holds none. */
  lemma ConsKeepsFree(r: string, tail: string)
    requires r != [] && r[1..] == tail && Free(tail, Fence)
    requires |r| >= 3 ==> r[0] != Tick || r[1] != Tick || r[2] != Tick
    ensures Free(r, Fence)
  {
    forall i | 0 <= i <= |r| ensures !OccursAt(r, Fence, i) {
      if i == 0 {
        if |Fence| <= |r| {
          assert r[..|Fence|][1] == r[1] && r[..|Fence|][2] == r[2];
        }
      } else {
        assert !OccursAt(tail, Fence, i - 1);
        if i + |Fence| <= |r| {
          assert r[i..i + |Fence|] == tail[i - 1..i - 1 + |Fence|];
        }
      }
    }
  }

  /** Trimming cuts an infix out, so it cannot create an occurrence. */
  lemma TrimKeepsFree(s: string, t: string)
    requires Free(s, t)
    ensures Free(Trim(s), t)
  {
    var i: nat, j: nat :| SpaceAround(s, Trim(s), i, j);
    assert SpaceAround(s, Trim(s), i, j);
    InfixKeepsFree(s, t, i, j);
  }

  lemma InfixKeepsFree(s: string, t: string, i: nat, j: nat)
    requires Free(s, t)
    requires i <= j <= |s|
    ensures Free(s[i..j], t)
  {
    var r := s[i..j];
    forall k | 0 <= k <= |r| ensures !OccursAt(r, t, k) {
      assert !OccursAt(s, t, i + k);
      if k + |t| <= |r| {
        var a, b := r[k..k + |t|], s[i + k..i + k + |t|];
        forall m | 0 <= m < |t| ensures a[m] == b[m] {
          assert a[m] == r[k + m] && b[m] == s[i + k + m];
        }
        assert a == b;
      }
    }
  }

  /** A reply without backticks is only trimmed. */
  lemma StripFencesKeepsPlainText(text: string)
    requires Tick !in text
    ensures StripFences(text) == Trim(text)
  {
    NoTickMeansFree(text, JsonFence);
    NoTickMeansFree(text, Fence);
    ReplaceAllAbsent(text, JsonFence, "");
    ReplaceAllAbsent(text, Fence, "");
  }

  /** The usual wrapper, "```json" … "```", around a backtick-free body is removed
      and only the trimmed body is left. */
  lemma {:induction false} StripFencesUnwraps(body: string)
    requires Tick !in body
    ensures StripFences(JsonFence + body + Fence) == Trim(body)
  {
    var s := JsonFence + body + Fence;
    assert HasPrefix(s, JsonFence);
    assert s[|JsonFence|..] == body + Fence;
    ReplaceAllSkip(body, Fence, JsonFence, "");
    assert Free(Fence, JsonFence);
    ReplaceAllAbsent(Fence, JsonFence, "");
    assert ReplaceAll(s, JsonFence, "") == body + Fence;
    ReplaceAllSkip(body, Fence, Fence, "");
    assert HasPrefix(Fence, Fence);
    assert Fence[|Fence|..] == [];
    assert ReplaceAll(Fence, Fence, "") == "";
    assert body + "" == body;
  }

  lemma NoTickMeansFree(s: string, t: string)
    requires Tick !in s
    requires t != [] && t[0] == Tick
    ensures Free(s, t)
  {
    forall i | 0 <= i <= |s| ensures !OccursAt(s, t, i) {
      if i + |t| <= |s| {
        assert s[i..i + |t|][0] == s[i];
      }
    }
  }
}
