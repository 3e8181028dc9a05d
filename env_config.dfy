/** `parseEnvFile` from the Expo configuration and the `extra` values it
    feeds: `KEY=value` lines, later lines overriding earlier ones. */
module EnvConfig {
  import opened Outcomes
  import opened JsString
  import opened Seqs

  /** `[A-Za-z0-9_]`. */
  predicate IsKeyChar(c: char) {
    ('A' <= c <= 'Z') || ('a' <= c <= 'z') || ('0' <= c <= '9') || c == '_'
  }

  /** `line` matches `^([A-Za-z0-9_]+)=(.*)$` with the first group ending at
      index `k`: `.` matches no line terminator and there is no `m` flag. */
  ghost predicate LineMatchesAt(line: string, k: nat) {
    && 0 < k < |line| && line[k] == '='
    && (forall i :: 0 <= i < k ==> IsKeyChar(line[i]))
    && (forall i :: k < i < |line| ==> !IsLineTerminator(line[i]))
  }

  /** The length of the longest prefix of key characters, as the greedy
      group `[A-Za-z0-9_]+` consumes it. */
  function KeyPrefixLength(s: string): (k: nat)
    ensures k <= |s|
    ensures forall i :: 0 <= i < k ==> IsKeyChar(s[i])
    ensures k < |s| ==> !IsKeyChar(s[k])
    decreases |s|
  {
    if s != [] && IsKeyChar(s[0]) then 1 + KeyPrefixLength(s[1..]) else 0
  }

  predicate NoLineTerminator(s: string) {
    forall i :: 0 <= i < |s| ==> !IsLineTerminator(s[i])
  }

  /** `line.match(/^([A-Za-z0-9_]+)=(.*)$/)`: the two groups, or no match. */
  function MatchLine(line: string): (m: Option<(string, string)>)
    ensures m.Some? ==> line == m.value.0 + "=" + m.value.1
  {
    var k := KeyPrefixLength(line);
    if 0 < k < |line| && line[k] == '=' && NoLineTerminator(line[k + 1..]) then
      assert line == line[..k] + "=" + line[k + 1..];
      Some((line[..k], line[k + 1..]))
    else None
  }

  /** The regular expression matches exactly the lines `MatchLine` accepts,
      and its first group always ends at the first `=`. */
  lemma MatchLineIff(line: string)
    ensures MatchLine(line).Some? <==> exists k: nat :: LineMatchesAt(line, k)
    ensures MatchLine(line).Some? ==> LineMatchesAt(line, |MatchLine(line).value.0|)
  {
    var k := KeyPrefixLength(line);
    forall j: nat | LineMatchesAt(line, j) ensures j == k { }
    var rest := if k < |line| then line[k + 1..] else [];
    if LineMatchesAt(line, k) {
      forall i | 0 <= i < |rest| ensures !IsLineTerminator(rest[i]) {
        assert rest[i] == line[k + 1 + i];
      }
    }
    if MatchLine(line).Some? {
      forall i | k < i < |line| ensures !IsLineTerminator(line[i]) {
        assert line[i] == rest[i - k - 1];
      }
      assert LineMatchesAt(line, k);
    }
  }

  /** A line holding a carriage return never matches, so a `.env` file with
      CRLF line endings yields no entries at all. */
  lemma CarriageReturnNeverMatches(line: string, j: nat)
    requires j < |line| && line[j] == '\r'
    ensures MatchLine(line).None?
  {
    var k := KeyPrefixLength(line);
    assert j < k ==> IsKeyChar(line[j]);
    assert j > k ==> line[k + 1..][j - k - 1] == '\r';
  }

  /** `if (value.startsWith('"') && value.endsWith('"')) value = value.slice(1, -1)`:
      a lone `"` both starts and ends with a quote and becomes "". */
  function StripQuotes(v: string): (r: string)
    ensures |v| >= 2 && v[0] == '"' && v[|v| - 1] == '"' ==> r == v[1..|v| - 1]
    ensures v == "\"" ==> r == ""
    ensures !(|v| >= 1 && v[0] == '"' && v[|v| - 1] == '"') ==> r == v
  {
    if |v| >= 1 && v[0] == '"' && v[|v| - 1] == '"' then
      if |v| >= 2 then v[1..|v| - 1] else ""
    else v
  }

  datatype Entry = Entry(key: string, value: string)

  /** One line of the file: key and trimmed, unquoted value, or nothing. */
  function ParseLine(line: string): Option<Entry> {
    var m := MatchLine(line);
    if m.None? then None else Some(Entry(Trim(m.value.0), StripQuotes(Trim(m.value.1))))
  }

  /** The key is the text before the first `=`: the `trim` applied to it
      never changes it, since key characters are not whitespace. */
  lemma ParseLineKey(line: string)
    requires MatchLine(line).Some?
    ensures ParseLine(line).Some? && ParseLine(line).value.key == MatchLine(line).value.0
  {
    var key := MatchLine(line).value.0;
    assert Trim(key) == key by {
      assert key == line[..KeyPrefixLength(line)];
      KeyGroupTrimmed(key);
    }
  }

  /** The key group contains no whitespace. */
  lemma KeyGroupTrimmed(k: string)
    requires forall i :: 0 <= i < |k| ==> IsKeyChar(k[i])
    ensures Trim(k) == k
  {
    forall i | 0 <= i < |k| ensures !IsJsWhitespace(k[i]) {
      KeyCharNotWhitespace(k[i]);
    }
    TrimNoWhitespace(k);
  }

  lemma KeyCharNotWhitespace(c: char)
    requires IsKeyChar(c)
    ensures !IsJsWhitespace(c)
  {
  }

  /** `env[key] = value` on a plain object: assigning a string to the key
      `__proto__` goes to the inherited setter, which ignores it. */
  function Assign(env: map<string, string>, e: Entry): map<string, string> {
    if e.key == "__proto__" then env else env[e.key := e.value]
  }

  /** Entry `e` stores key `k`: a parsed line whose key is not `__proto__`. */
  predicate EntryDefines(e: Option<Entry>, k: string) {
    e.Some? && e.value.key == k && k != "__proto__"
  }

  predicate DefinesKey(line: string, k: string) {
    EntryDefines(ParseLine(line), k)
  }

  /** The dictionary after the `forEach` body has handled the parsed lines
      `es` in order. */
  function FoldEntries(es: seq<Option<Entry>>): map<string, string>
    decreases |es|
  {
    if es == [] then map[]
    else
      var env := FoldEntries(es[..|es| - 1]);
      match es[|es| - 1]
      case None => env
      case Some(e) => Assign(env, e)
  }

  function Fold(lines: seq<string>): map<string, string> {
    FoldEntries(Map(lines, ParseLine))
  }

  /** `parseEnvFile` once the file is read: split on "\n" and fold the lines
      into `env` one by one. */
  method ParseEnvContent(content: string) returns (env: map<string, string>)
    ensures env == Fold(Split(content, '\n'))
  {
    var lines := Split(content, '\n');
    ghost var es := Map(lines, ParseLine);
    env := map[];
    var i := 0;
    while i < |lines|
      invariant 0 <= i <= |lines|
      invariant env == FoldEntries(es[..i])
    {
      assert es[..i + 1][..i] == es[..i];
      var parsed := ParseLine(lines[i]);
      if parsed.Some? {
        env := Assign(env, parsed.value);
      }
      i := i + 1;
    }
    assert es[..i] == es;
  }

  /** `parseEnvFile(path)`: `file` is the file's text, or None when it does
      not exist or cannot be read (both return `{}`). */
  method ParseEnvFile(file: Option<string>) returns (env: map<string, string>)
    ensures file.None? ==> env == map[]
    ensures file.Some? ==> env == Fold(Split(file.value, '\n'))
  {
    if file.None? {
      return map[];
    }
    env := ParseEnvContent(file.value);
  }

  lemma {:induction false} FoldEntriesKeys(es: seq<Option<Entry>>, k: string)
    ensures k in FoldEntries(es) <==> exists i :: 0 <= i < |es| && EntryDefines(es[i], k)
    decreases |es|
  {
    if es != [] {
      var init := es[..|es| - 1];
      FoldEntriesKeys(init, k);
      if exists i :: 0 <= i < |init| && EntryDefines(init[i], k) {
        var i :| 0 <= i < |init| && EntryDefines(init[i], k);
        assert init[i] == es[i];
      }
      if exists i :: 0 <= i < |es| && EntryDefines(es[i], k) {
        var i :| 0 <= i < |es| && EntryDefines(es[i], k);
        if i < |init| {
          assert init[i] == es[i];
        }
      }
    }
  }

  lemma {:induction false} FoldEntriesLast(es: seq<Option<Entry>>, i: nat, k: string)
    requires i < |es| && EntryDefines(es[i], k)
    requires forall j :: i < j < |es| ==> !EntryDefines(es[j], k)
    ensures k in FoldEntries(es) && FoldEntries(es)[k] == es[i].value.value
    decreases |es|
  {
    var init := es[..|es| - 1];
    if i < |es| - 1 {
      assert init[i] == es[i];
      forall j | i < j < |init| ensures !EntryDefines(init[j], k) {
        assert init[j] == es[j];
      }
      FoldEntriesLast(init, i, k);
    }
  }

  /** A key is in the dictionary exactly when some line defines it. */
  lemma FoldKeys(lines: seq<string>, k: string)
    ensures k in Fold(lines) <==> exists i :: 0 <= i < |lines| && DefinesKey(lines[i], k)
  {
    var es := Map(lines, ParseLine);
    FoldEntriesKeys(es, k);
    assert forall i :: 0 <= i < |lines| ==> es[i] == ParseLine(lines[i]);
  }

  /** The last line that defines a key gives its value: later duplicates
      overwrite earlier ones. */
  lemma LastDuplicateWins(lines: seq<string>, i: nat, k: string)
    requires i < |lines| && DefinesKey(lines[i], k)
    requires forall j :: i < j < |lines| ==> !DefinesKey(lines[j], k)
    ensures k in Fold(lines) && Fold(lines)[k] == ParseLine(lines[i]).value.value
  {
    var es := Map(lines, ParseLine);
    FoldEntriesLast(es, i, k);
  }

  /** The values `extra` passes to the app. */
  datatype Extra = Extra(
    apiBaseUrl: string,
    authTokenExpiryDays: string,
    appEnv: string,
    appVersion: string,
    enableAnalytics: string,
    easProjectId: string)

  /** `env.KEY || "default"`: a missing or empty value falls back. */
  function EnvOr(env: map<string, string>, key: string, default: string): (v: string)
    ensures key in env && env[key] != "" ==> v == env[key]
    ensures key !in env || env[key] == "" ==> v == default
  {
    if key in env then OrElse(env[key], default) else default
  }

  function ExtraOf(env: map<string, string>): Extra {
    Extra(
      EnvOr(env, "API_BASE_URL", "https://ss-backend-uqx4.onrender.com"),
      EnvOr(env, "AUTH_TOKEN_EXPIRY_DAYS", "7"),
      EnvOr(env, "APP_ENV", "development"),
      EnvOr(env, "APP_VERSION", "1.0.0"),
      EnvOr(env, "ENABLE_ANALYTICS", "false"),
      "3ad37c1a-cb50-4ee7-be0c-9c55f5f4561d")
  }

  /** Without a `.env` file every `extra` value is its literal default. */
  lemma MissingFileGivesDefaults()
    ensures ExtraOf(map[]) == Extra("https://ss-backend-uqx4.onrender.com", "7", "development",
                                    "1.0.0", "false", "3ad37c1a-cb50-4ee7-be0c-9c55f5f4561d")
  {
  }

  /** Each `extra` value is the last definition in the file when that is
      non-empty, and the default otherwise. */
  lemma ExtraTakesLastDefinition(lines: seq<string>, i: nat)
    requires i < |lines| && DefinesKey(lines[i], "APP_ENV")
    requires forall j :: i < j < |lines| ==> !DefinesKey(lines[j], "APP_ENV")
    ensures ParseLine(lines[i]).value.value != "" ==> ExtraOf(Fold(lines)).appEnv == ParseLine(lines[i]).value.value
    ensures ParseLine(lines[i]).value.value == "" ==> ExtraOf(Fold(lines)).appEnv == "development"
  {
    LastDuplicateWins(lines, i, "APP_ENV");
  }

  /** The greedy key group stops exactly at the end of a run of key
      characters. */
  lemma {:induction false} KeyPrefixLengthOf(key: string, rest: string)
    requires forall i :: 0 <= i < |key| ==> IsKeyChar(key[i])
    requires rest == [] || !IsKeyChar(rest[0])
    ensures KeyPrefixLength(key + rest) == |key|
    decreases |key|
  {
    if key != [] {
      assert (key + rest)[1..] == key[1..] + rest;
      KeyPrefixLengthOf(key[1..], rest);
    }
  }

  /** Every `KEY=value` line with a non-empty key group and a value free of
      line terminators matches, and splits back into that key and value. */
  lemma MatchLineOf(key: string, value: string)
    requires key != [] && forall i :: 0 <= i < |key| ==> IsKeyChar(key[i])
    requires NoLineTerminator(value)
    ensures MatchLine(key + "=" + value) == Some((key, value))
  {
    var line := key + "=" + value;
    KeyPrefixLengthOf(key, "=" + value);
    assert key + ("=" + value) == line;
    assert line[..|key|] == key && line[|key| + 1..] == value;
  }

  /** The entry such a line yields: its key, and its value trimmed and
      stripped of one pair of enclosing quotes. */
  lemma ParseLineOf(key: string, value: string)
    requires key != [] && forall i :: 0 <= i < |key| ==> IsKeyChar(key[i])
    requires NoLineTerminator(value)
    ensures ParseLine(key + "=" + value) == Some(Entry(key, StripQuotes(Trim(value))))
  {
    MatchLineOf(key, value);
    KeyGroupTrimmed(key);
  }

  /** A quoted value is kept verbatim without its quotes, whitespace inside
      the quotes included. */
  lemma QuotedValue(key: string, v: string)
    requires key != [] && forall i :: 0 <= i < |key| ==> IsKeyChar(key[i])
    requires NoLineTerminator(v)
    ensures ParseLine(key + "=" + ("\"" + v + "\"")) == Some(Entry(key, v))
  {
    var q := "\"" + v + "\"";
    assert NoLineTerminator(q) by {
      forall i | 0 <= i < |q| ensures !IsLineTerminator(q[i]) {
        if 0 < i < |q| - 1 {
          assert q[i] == v[i - 1];
        }
      }
    }
    assert Trim(q) == q;
    ParseLineOf(key, q);
    assert q[1..|q| - 1] == v;
  }

  /** A value that is a lone quote both starts and ends with a quote, and
      becomes the empty string. */
  lemma LoneQuoteValue(key: string)
    requires key != [] && forall i :: 0 <= i < |key| ==> IsKeyChar(key[i])
    ensures ParseLine(key + "=" + "\"") == Some(Entry(key, ""))
  {
    assert Trim("\"") == "\"";
    ParseLineOf(key, "\"");
  }

  /** A line that does not start with a key character, such as a `#`
      comment, is skipped. */
  lemma CommentLineSkipped(line: string)
    requires line != [] && !IsKeyChar(line[0])
    ensures ParseLine(line).None?
  {
    assert KeyPrefixLength(line) == 0;
  }
}
