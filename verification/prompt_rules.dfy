/**
 * The non-textual rules of the prompt builder: the enums the rest of the relay
 * exchanges, the LLM-call gate, and the helpers that render values into a prompt.
 */
module PromptRules {
  import opened Wrappers

  datatype Phase = Searching | AudioContact | ConfirmedContact | RescueGuide | Retreat | Hold

  datatype HazardLevel = Low | Medium | High | Critical

  datatype SurvivorEvidence = NoEvidence | Possible | Confirmed

  /** `shouldCallLlm`: never on CRITICAL hazard, never within the cooldown, otherwise on confirmed evidence. */
  function ShouldCallLlm(evidence: SurvivorEvidence, hazard: HazardLevel, nowMs: int, lastLlmCallAtMs: int, cooldownMs: int): (r: bool)
    ensures hazard == Critical ==> !r
    ensures nowMs - lastLlmCallAtMs < cooldownMs ==> !r
    ensures hazard != Critical && nowMs - lastLlmCallAtMs >= cooldownMs ==> (r <==> evidence == Confirmed)
  {
    if hazard == Critical then false
    else if nowMs - lastLlmCallAtMs < cooldownMs then false
    else evidence == Confirmed
  }

  /** `n`: a null value renders as "null", anything else as its string form (given here already rendered). */
  function N(v: Option<string>): (r: string)
    ensures v.None? ==> r == "null"
    ensures v.Some? ==> r == v.value
  {
    match v
    case None => "null"
    case Some(s) => s
  }

  /** `b`: "true" only for a non-null true. */
  function B(v: Option<bool>): (r: string)
    ensures r == "true" <==> v == Some(true)
    ensures r == "true" || r == "false"
  {
    if v == Some(true) then "true" else "false"
  }

  /** `String.replace` with a one-character target: every occurrence of `c` becomes `rep`. */
  function ReplaceChar(s: string, c: char, rep: string): (r: string)
    ensures c !in rep ==> c !in r
    ensures c !in s ==> r == s
  {
    if s == [] then []
    else (if s[0] == c then rep else [s[0]]) + ReplaceChar(s[1..], c, rep)
  }

  /** `q` as written: backslashes doubled, then quotes escaped, then CR and LF blanked; null gives "". */
  function Q(s: Option<string>): (r: string)
    ensures s.None? ==> r == ""
    ensures '\r' !in r
    ensures s.Some? && '\\' !in s.value && '"' !in s.value && '\n' !in s.value && '\r' !in s.value ==> r == s.value
  {
    match s
    case None => ""
    case Some(t) =>
      ReplaceChar(ReplaceChar(ReplaceChar(ReplaceChar(t, '\\', "\\\\"), '"', "\\\""), '\n', " "), '\r', " ")
  }

  /** What `q` does to one character. */
  function EscapeChar(c: char): (r: string)
    ensures 1 <= |r| <= 2
  {
    if c == '\\' then "\\\\"
    else if c == '"' then "\\\""
    else if c == '\n' || c == '\r' then " "
    else [c]
  }

  /** A one-pass reference definition of the escaping. */
  function Escape(s: string): (r: string)
    ensures |s| <= |r| <= 2 * |s|
  {
    if s == [] then [] else EscapeChar(s[0]) + Escape(s[1..])
  }

  /** Reads escaped text back: a backslash stands for the character after it. */
  function Unescape(t: string): (r: string)
    decreases |t|
  {
    if t == [] then []
    else if t[0] == '\\' && |t| >= 2 then [t[1]] + Unescape(t[2..])
    else [t[0]] + Unescape(t[1..])
  }

  /** Line breaks become spaces; everything else is kept. */
  function Flatten(s: string): (r: string)
    ensures |r| == |s|
  {
    if s == [] then [] else [if s[0] == '\n' || s[0] == '\r' then ' ' else s[0]] + Flatten(s[1..])
  }

  /** Every quote is preceded by an escaping backslash and no backslash dangles at the end. */
  predicate Escaped(t: string)
    decreases |t|
  {
    if t == [] then true
    else if t[0] == '\\' then |t| >= 2 && Escaped(t[2..])
    else t[0] != '"' && Escaped(t[1..])
  }

  // ----- properties -----

  lemma {:induction false} ReplaceCharAppend(a: string, b: string, c: char, rep: string)
    ensures ReplaceChar(a + b, c, rep) == ReplaceChar(a, c, rep) + ReplaceChar(b, c, rep)
  {
    if a == [] {
      assert a + b == b;
    } else {
      assert (a + b)[1..] == a[1..] + b;
      ReplaceCharAppend(a[1..], b, c, rep);
    }
  }

  /** Replacing in a one-character string. */
  lemma ReplaceSingle(c: char, x: char, rep: string)
    ensures ReplaceChar([c], x, rep) == if c == x then rep else [c]
  {
    assert [c][1..] == [];
  }

  /** The four chained replaces applied to one character's worth of input. */
  lemma ChainOnChar(c: char)
    ensures ReplaceChar(ReplaceChar(ReplaceChar(ReplaceChar([c], '\\', "\\\\"), '"', "\\\""), '\n', " "), '\r', " ")
      == EscapeChar(c)
  {
    ReplaceSingle(c, '\\', "\\\\");
    var s1 := ReplaceChar([c], '\\', "\\\\");
    if c == '\\' {
      assert s1 == "\\\\";
      assert '"' !in s1 && '\n' !in s1 && '\r' !in s1;
    } else {
      assert s1 == [c];
      ReplaceSingle(c, '"', "\\\"");
      var s2 := ReplaceChar(s1, '"', "\\\"");
      if c == '"' {
        assert s2 == "\\\"";
        assert '\n' !in s2 && '\r' !in s2;
      } else {
        assert s2 == [c];
        ReplaceSingle(c, '\n', " ");
        ReplaceSingle(c, '\r', " ");
        if c == '\n' {
          assert ReplaceChar(s2, '\n', " ") == " ";
        }
      }
    }
  }

  /** The whole chain distributes over concatenation. */
  lemma ChainAppend(a: string, b: string)
    ensures Q(Some(a + b)) == Q(Some(a)) + Q(Some(b))
  {
    ReplaceCharAppend(a, b, '\\', "\\\\");
    var a1, b1 := ReplaceChar(a, '\\', "\\\\"), ReplaceChar(b, '\\', "\\\\");
    ReplaceCharAppend(a1, b1, '"', "\\\"");
    var a2, b2 := ReplaceChar(a1, '"', "\\\""), ReplaceChar(b1, '"', "\\\"");
    ReplaceCharAppend(a2, b2, '\n', " ");
    var a3, b3 := ReplaceChar(a2, '\n', " "), ReplaceChar(b2, '\n', " ");
    ReplaceCharAppend(a3, b3, '\r', " ");
  }

  /** `q` as written agrees with the one-pass escaping on every input. */
  lemma {:induction false} QIsEscape(s: string)
    ensures Q(Some(s)) == Escape(s)
  {
    if s != [] {
      assert s == [s[0]] + s[1..];
      ChainAppend([s[0]], s[1..]);
      ChainOnChar(s[0]);
      QIsEscape(s[1..]);
    }
  }

  /** The escaped text has no CR or LF. */
  lemma {:induction false} EscapeHasNoLineBreak(s: string)
    ensures '\n' !in Escape(s) && '\r' !in Escape(s)
  {
    if s != [] {
      EscapeHasNoLineBreak(s[1..]);
    }
  }

  lemma {:induction false} EscapedPrefix(c: char, rest: string)
    requires Escaped(rest)
    ensures Escaped(EscapeChar(c) + rest)
  {
    var t := EscapeChar(c) + rest;
    if |EscapeChar(c)| == 2 {
      assert t[2..] == rest;
    } else {
      assert t[1..] == rest;
    }
  }

  /** Every quote in the escaped text is escaped. */
  lemma {:induction false} EscapeIsEscaped(s: string)
    ensures Escaped(Escape(s))
  {
    if s != [] {
      EscapeIsEscaped(s[1..]);
      EscapedPrefix(s[0], Escape(s[1..]));
    }
  }

  /** Reading the escaped text back gives the input with line breaks blanked. */
  lemma {:induction false} UnescapeEscape(s: string)
    ensures Unescape(Escape(s)) == Flatten(s)
  {
    if s != [] {
      var e := EscapeChar(s[0]);
      var t := e + Escape(s[1..]);
      UnescapeEscape(s[1..]);
      if |e| == 2 {
        assert t[2..] == Escape(s[1..]);
      } else {
        assert t[1..] == Escape(s[1..]);
      }
    }
  }

  /** `q(null)` is empty, and `q` never emits a line break or a bare quote. */
  lemma QProperties(s: Option<string>)
    ensures s.None? ==> Q(s) == ""
    ensures '\n' !in Q(s) && '\r' !in Q(s)
    ensures Escaped(Q(s))
    ensures s.Some? ==> Unescape(Q(s)) == Flatten(s.value)
  {
    if s.Some? {
      QIsEscape(s.value);
      EscapeHasNoLineBreak(s.value);
      EscapeIsEscaped(s.value);
      UnescapeEscape(s.value);
    }
  }

  /** Once the gate opens it stays open as time passes, other inputs unchanged. */
  lemma GateStaysOpen(e: SurvivorEvidence, h: HazardLevel, now: int, later: int, last: int, cooldown: int)
    requires ShouldCallLlm(e, h, now, last, cooldown) && now <= later
    ensures ShouldCallLlm(e, h, later, last, cooldown)
  {
  }
}
