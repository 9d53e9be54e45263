/**
 * The `.env` reader: each line is trimmed, blank and `#` lines are skipped, the rest is
 * split at its first '=' into a trimmed key and value, and later keys override earlier
 * ones. Reading the file is the input `Option<seq<string>>` (None when it cannot be read).
 */
module EnvLoader {
  import opened Wrappers
  import opened JavaText

  /** The position of the first `c` in `s`. */
  function FirstIndex(s: string, c: char): (r: Option<nat>)
    ensures r.None? <==> c !in s
    ensures r.Some? ==> r.value < |s| && s[r.value] == c && c !in s[..r.value]
  {
    if s == [] then None
    else if s[0] == c then Some(0)
    else match FirstIndex(s[1..], c)
      case None => None
      case Some(i) =>
        assert s[..i + 1] == [s[0]] + s[1..][..i];
        Some(i + 1)
  }

  predicate Skipped(t: string) {
    t == [] || t[0] == '#'
  }

  /** One line of the file: its key and value, or None when it contributes nothing. */
  function ParseLine(line: string): (r: Option<(string, string)>)
    ensures Skipped(Trim(line)) || '=' !in Trim(line) ==> r.None?
    ensures !Skipped(Trim(line)) && '=' in Trim(line) ==> r.Some?
    ensures r.Some? ==> exists i :: (0 <= i < |Trim(line)| && Trim(line)[i] == '=' && '=' !in Trim(line)[..i]
      && r.value == (Trim(Trim(line)[..i]), Trim(Trim(line)[i + 1..])))
  {
    var t := Trim(line);
    if Skipped(t) then None
    else match FirstIndex(t, '=')
      case None => None
      case Some(i) => Some((Trim(t[..i]), Trim(t[i + 1..])))
  }

  /** The value the last line defining `k` gives it: the reference meaning of the loaded map. */
  function LastDefinition(lines: seq<string>, k: string): Option<string> {
    if lines == [] then None
    else
      var p := ParseLine(lines[|lines| - 1]);
      if p.Some? && p.value.0 == k then Some(p.value.1) else LastDefinition(lines[..|lines| - 1], k)
  }

  lemma DefinitionStep(prefix: seq<string>, line: string, k: string)
    ensures var p := ParseLine(line);
      LastDefinition(prefix + [line], k) == if p.Some? && p.value.0 == k then Some(p.value.1) else LastDefinition(prefix, k)
  {
    var all := prefix + [line];
    assert all[..|all| - 1] == prefix;
    assert all[|all| - 1] == line;
  }

  /** `env` holds exactly the last definition of every key in `lines`. */
  ghost predicate Represents(env: map<string, string>, lines: seq<string>) {
    && (forall k :: k in env <==> LastDefinition(lines, k).Some?)
    && (forall k :: k in env ==> LastDefinition(lines, k) == Some(env[k]))
  }

  /** One iteration of the loop body. */
  function Apply(env: map<string, string>, line: string): map<string, string> {
    var p := ParseLine(line);
    if p.Some? then env[p.value.0 := p.value.1] else env
  }

  lemma RepresentsStep(env: map<string, string>, prefix: seq<string>, line: string)
    requires Represents(env, prefix)
    ensures Represents(Apply(env, line), prefix + [line])
  {
    var env1 := Apply(env, line);
    forall k
      ensures (k in env1 <==> LastDefinition(prefix + [line], k).Some?)
      ensures k in env1 ==> LastDefinition(prefix + [line], k) == Some(env1[k])
    {
      DefinitionStep(prefix, line, k);
    }
  }

  /** The static initializer: fold the lines into a map in file order. */
  method Load(file: Option<seq<string>>) returns (env: map<string, string>)
    ensures file.None? ==> env == map[]
    ensures file.Some? ==> forall k :: k in env <==> LastDefinition(file.value, k).Some?
    ensures file.Some? ==> forall k :: k in env ==> LastDefinition(file.value, k) == Some(env[k])
  {
    env := map[];
    if file.None? { return; }
    var lines := file.value;
    var i := 0;
    while i < |lines|
      invariant 0 <= i <= |lines|
      invariant Represents(env, lines[..i])
    {
      PrefixStep(lines, i);
      RepresentsStep(env, lines[..i], lines[i]);
      env := Apply(env, lines[i]);
      i := i + 1;
    }
    assert lines[..|lines|] == lines;
    RepresentsMeans(env, lines);
  }

  lemma PrefixStep(lines: seq<string>, i: nat)
    requires i < |lines|
    ensures lines[..i + 1] == lines[..i] + [lines[i]]
  {
  }

  lemma RepresentsMeans(env: map<string, string>, lines: seq<string>)
    requires Represents(env, lines)
    ensures forall k :: k in env <==> LastDefinition(lines, k).Some?
    ensures forall k :: k in env ==> LastDefinition(lines, k) == Some(env[k])
  {
  }

  /** `get`: None stands for Java's null. */
  function Get(env: map<string, string>, key: string): (r: Option<string>)
    ensures r.Some? <==> key in env
    ensures r.Some? ==> r.value == env[key]
  {
    if key in env then Some(env[key]) else None
  }

  // ----- properties -----

  /** A parsed key never contains '=', and neither key nor value has surrounding whitespace. */
  lemma KeyHasNoEquals(line: string)
    requires ParseLine(line).Some?
    ensures '=' !in ParseLine(line).value.0
    ensures ParseLine(line).value.0 == Trim(ParseLine(line).value.0)
  {
    var t := Trim(line);
    var i :| 0 <= i < |t| && t[i] == '=' && '=' !in t[..i] && ParseLine(line).value == (Trim(t[..i]), Trim(t[i + 1..]));
    NotInTrim(t[..i], '=');
    TrimIdempotent(t[..i]);
  }

  /** Trimming removes characters and never introduces one. */
  lemma NotInTrim(s: string, c: char)
    requires c !in s
    ensures c !in Trim(s)
  {
    var r := Trim(s);
    var a, b :| 0 <= a <= b <= |s| && r == s[a..b];
    forall j | 0 <= j < |r|
      ensures r[j] != c
    {
      assert r[j] == s[a + j];
    }
  }

  lemma TrimIdempotent(s: string)
    ensures Trim(Trim(s)) == Trim(s)
  {
    var r := Trim(s);
    if r != [] { TrimKeeps(r); }
  }

  /** A value keeps every '=' after the first one. */
  lemma ValueKeepsEquals(line: string)
    requires line == " TOKEN = a=b= "
    ensures ParseLine(line) == Some(("TOKEN", "a=b="))
  {
    TrimmedExample(line);
    FirstEqualsExample("TOKEN = a=b=");
    SplitAtFirst(line, "TOKEN = a=b=", 6);
    TrimPieces();
  }

  lemma SplitAtFirst(line: string, t: string, i: nat)
    requires Trim(line) == t && !Skipped(t) && FirstIndex(t, '=') == Some(i)
    ensures ParseLine(line) == Some((Trim(t[..i]), Trim(t[i + 1..])))
  {
  }

  lemma TrimPieces()
    ensures Trim("TOKEN ") == "TOKEN" && Trim(" a=b=") == "a=b="
  {
    TrimKey("TOKEN ");
    TrimValue(" a=b=");
  }

  lemma TrimKey(s: string)
    requires s == "TOKEN "
    ensures Trim(s) == "TOKEN"
  {
    assert TrimStart(s) == s;
    assert s[..|s| - 1] == "TOKEN";
    assert TrimEnd(s) == TrimEnd("TOKEN");
  }

  lemma TrimValue(s: string)
    requires s == " a=b="
    ensures Trim(s) == "a=b="
  {
    assert s[1..] == "a=b=";
    assert TrimStart(s) == TrimStart("a=b=");
    assert TrimEnd("a=b=") == "a=b=";
  }

  lemma TrimmedExample(line: string)
    requires line == " TOKEN = a=b= "
    ensures Trim(line) == "TOKEN = a=b="
  {
    assert TrimStart(line) == "TOKEN = a=b= ";
    assert TrimEnd("TOKEN = a=b= ") == "TOKEN = a=b=";
  }

  lemma FirstEqualsExample(t: string)
    requires t == "TOKEN = a=b="
    ensures FirstIndex(t, '=') == Some(6) && t[..6] == "TOKEN " && t[7..] == " a=b="
  {
    assert t[6] == '=';
    assert '=' !in t[..6];
  }

  /** A later definition of a key replaces an earlier one; unrelated keys are untouched. */
  lemma LaterLineWins(lines: seq<string>, line: string, k: string, other: string)
    requires ParseLine(line).Some? && ParseLine(line).value.0 == k && other != k
    ensures LastDefinition(lines + [line], k) == Some(ParseLine(line).value.1)
    ensures LastDefinition(lines + [line], other) == LastDefinition(lines, other)
  {
    DefinitionStep(lines, line, k);
    DefinitionStep(lines, line, other);
  }
}
