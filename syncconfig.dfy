// src/config/syncConfig.js: the `.env` parser and the OAuth client
// settings read from it.
module SyncConfig {
  import opened Wrappers
  import Text

  /** A line of the file: its `\r\n` or `\n` ending removed (`split(/\r?\n/)`). */
  function StripCr(segment: string): (r: string)
    ensures segment != [] && segment[|segment| - 1] == '\r' ==> r == segment[..|segment| - 1]
    ensures (segment == [] || segment[|segment| - 1] != '\r') ==> r == segment
  {
    if segment != [] && segment[|segment| - 1] == '\r' then segment[..|segment| - 1] else segment
  }

  function Lines(content: string): (r: seq<string>)
    ensures |r| == |Text.Split(content, '\n')|
    ensures forall i :: 0 <= i < |r| ==> r[i] == StripCr(Text.Split(content, '\n')[i])
  {
    var segments := Text.Split(content, '\n');
    seq(|segments|, i requires 0 <= i < |segments| => StripCr(segments[i]))
  }

  /**
   * What one line contributes: nothing for a blank line, a `#` comment or
   * an empty key; otherwise the trimmed key before the first `=` and the
   * trimmed rest of the line, `=` signs included.
   */
  function Entry(line: string): Option<(string, string)>
  {
    var trimmed := Text.Trim(line);
    if trimmed == [] || Text.StartsWith(trimmed, "#") then None
    else
      var parts := Text.Split(trimmed, '=');
      var key := parts[0];
      if key == [] then None
      else Some((Text.Trim(key), Text.Trim(Text.Join(parts[1..], "="))))
  }

  /** `parts.join(sep)` of a split gives back everything after the first separator. */
  lemma RestAfterFirst(t: string, c: char)
    ensures var i := Text.IndexOf(t, c);
            Text.Split(t, c)[0] == t[..i]
            && Text.Join(Text.Split(t, c)[1..], [c]) == (if i < |t| then t[i + 1..] else [])
  {
    var i := Text.IndexOf(t, c);
    if i < |t| {
      Text.JoinSplit(t[i + 1..], c);
    } else {
      assert t[..i] == t;
    }
  }

  /**
   * A line counts when, trimmed, it is not empty, not a comment and does not
   * start with `=`: its key is the text before the first `=`, its value all
   * the text after it (so values may contain `=`), both trimmed.
   */
  lemma EntryByIndex(line: string)
    ensures var t := Text.Trim(line);
            var i := Text.IndexOf(t, '=');
            Entry(line) == if t == [] || Text.StartsWith(t, "#") || i == 0 then None
                           else Some((Text.Trim(t[..i]), Text.Trim(if i < |t| then t[i + 1..] else [])))
  {
    RestAfterFirst(Text.Trim(line), '=');
  }

  /** The entries of the lines in order, each overwriting what an earlier line set for its key. */
  function Apply(values: map<string, string>, lines: seq<string>): (r: map<string, string>)
    decreases |lines|
  {
    if |lines| == 0 then values
    else Apply(Step(values, lines[0]), lines[1..])
  }

  /** `values[key.trim()] = rest.join('=').trim()` for a line that counts. */
  function Step(values: map<string, string>, line: string): map<string, string>
  {
    match Entry(line)
    case None => values
    case Some(kv) => values[kv.0 := kv.1]
  }

  /** Parsing one block of lines after another is parsing their concatenation. */
  lemma {:induction false} ApplyAppend(values: map<string, string>, a: seq<string>, b: seq<string>)
    ensures Apply(values, a + b) == Apply(Apply(values, a), b)
    decreases |a|
  {
    if |a| > 0 {
      assert (a + b)[1..] == a[1..] + b;
      ApplyAppend(Step(values, a[0]), a[1..], b);
    } else {
      assert a + b == b;
    }
  }

  /** A key the later lines set takes the later lines' value; other keys keep the earlier value. */
  lemma {:induction false} ApplyLaterWins(values: map<string, string>, lines: seq<string>, k: string)
    ensures k in Apply(values, lines) <==> k in values || k in Apply(map[], lines)
    ensures k in Apply(map[], lines) ==> Apply(values, lines)[k] == Apply(map[], lines)[k]
    ensures k !in Apply(map[], lines) && k in values ==> Apply(values, lines)[k] == values[k]
    decreases |lines|
  {
    if |lines| > 0 {
      match Entry(lines[0])
      case None =>
        ApplyLaterWins(values, lines[1..], k);
        ApplyLaterWins(map[], lines[1..], k);
      case Some(kv) =>
        ApplyLaterWins(values[kv.0 := kv.1], lines[1..], k);
        ApplyLaterWins(map[kv.0 := kv.1], lines[1..], k);
    }
  }

  /** Blank lines and comments leave the values as they are. */
  lemma SkippedLine(values: map<string, string>, line: string, rest: seq<string>)
    requires Text.Trim(line) == [] || Text.StartsWith(Text.Trim(line), "#")
    ensures Apply(values, [line] + rest) == Apply(values, rest)
  {
    assert ([line] + rest)[1..] == rest;
  }

  /** `parseEnv(content)`: the values object the lines build up. */
  method ParseEnv(content: string) returns (values: map<string, string>)
    ensures values == Apply(map[], Lines(content))
  {
    var lines := Lines(content);
    values := map[];
    var i := 0;
    while i < |lines|
      invariant 0 <= i <= |lines|
      invariant Apply(map[], lines) == Apply(values, lines[i..])
    {
      ApplyNext(values, lines, i);
      values := Step(values, lines[i]);
      i := i + 1;
    }
  }

  /** Reading line `i` is one step of `Apply`. */
  lemma ApplyNext(values: map<string, string>, lines: seq<string>, i: int)
    requires 0 <= i < |lines|
    ensures Apply(values, lines[i..]) == Apply(Step(values, lines[i]), lines[i + 1..])
  {
    assert lines[i..][1..] == lines[i + 1..];
  }

  /** `env[primary] || env[fallback] || ''`. */
  function Setting(env: map<string, string>, primary: string, fallback: string): (r: string)
    ensures primary in env && env[primary] != [] ==> r == env[primary]
    ensures (primary !in env || env[primary] == []) && fallback in env ==> r == env[fallback]
    ensures (primary !in env || env[primary] == []) && (fallback !in env || env[fallback] == []) ==> r == []
  {
    if primary in env && env[primary] != [] then env[primary]
    else if fallback in env && env[fallback] != [] then env[fallback]
    else []
  }

  function ClientId(env: map<string, string>): string
  {
    Setting(env, "Client ID", "CLIENT_ID")
  }

  function ClientSecret(env: map<string, string>): string
  {
    Setting(env, "Client secret", "CLIENT_SECRET")
  }

  /** The default name of the Drive backup file. */
  const BackupFileName := "vick-mick-backup.json"
}
