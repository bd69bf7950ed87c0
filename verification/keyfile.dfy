/** The line parsing of `load_keys_from_file`: a fold of the key file's
    lines into the process environment. Reading the file is left to the
    caller; the lines arrive as a sequence. */
module KeyFile {
  import opened Text

  type Env = map<string, string>

  datatype Entry = Entry(key: string, value: string)

  /** The entry one raw line of the key file contributes, if any: blank
      lines, `#` comments and lines without `=` contribute nothing; other
      lines split at the first `=`, and both halves are trimmed and must be
      non-empty. */
  function ParseLine(raw: string): (e: Option<Entry>)
    ensures e.Some? ==> e.value.key != "" && e.value.value != ""
    ensures e.Some? ==> Stripped(e.value.key) && Stripped(e.value.value)
    ensures e.Some? ==> '=' !in e.value.key
    ensures Strip(raw) == "" || Strip(raw)[0] == '#' || '=' !in Strip(raw) ==> e == None
  {
    var line := Strip(raw);
    if line == "" || line[0] == '#' || '=' !in line then None
    else
      var i := IndexOf(line, '=');
      var key, value := Strip(line[..i]), Strip(line[i + 1..]);
      if key != "" && value != "" then
        assert '=' !in key by {
          if '=' in key { StripKeepsChars(line[..i], '='); }
        }
        Some(Entry(key, value))
      else None
  }

  /** A line that is neither blank, a comment nor `=`-less gives an entry
      exactly when both trimmed halves around its first `=` are non-empty,
      so `=abc` and `abc=` give nothing. */
  lemma ParseLineIff(raw: string)
    requires Strip(raw) != "" && Strip(raw)[0] != '#' && '=' in Strip(raw)
    ensures ParseLine(raw).Some? <==>
      Strip(Strip(raw)[..IndexOf(Strip(raw), '=')]) != "" &&
      Strip(Strip(raw)[IndexOf(Strip(raw), '=') + 1..]) != ""
  {
  }

  /** An entry `os.environ` refuses: a key or value holding a NUL. */
  predicate Aborts(e: Entry) {
    '\0' in e.key || '\0' in e.value
  }

  /** `load_keys_from_file` over the given lines, starting from `env`. A key
      already present is never overwritten. Setting a key or value holding
      a NUL character makes `os.environ` raise, and the enclosing `except`
      ends the whole load at that line. */
  function Load(env: Env, lines: seq<string>): (r: Env)
    ensures forall k :: k in env ==> k in r && r[k] == env[k]
    ensures forall k :: k in r && k !in env ==> r[k] != "" && k != ""
    decreases |lines|
  {
    if lines == [] then env
    else match LoadOneLine(env, lines[0])
      case None => env
      case Some(next) => Load(next, lines[1..])
  }

  /** A line that aborts the load ends it: the environment is the one
      built from the lines before it. */
  lemma LoadStopsAtAbort(env: Env, lines: seq<string>, i: nat)
    requires i < |lines|
    requires LoadOneLine(Load(env, lines[..i]), lines[i]).None?
    ensures Load(env, lines) == Load(env, lines[..i])
  {
    SplitAround(lines, i);
    AbortIgnoresRest(env, lines[..i], lines[i], lines[i + 1..]);
  }

  /** Whatever lines follow an aborting line are never read. */
  lemma {:induction false} AbortIgnoresRest(env: Env, before: seq<string>, line: string, more: seq<string>)
    requires LoadOneLine(Load(env, before), line).None?
    ensures Load(env, before + [line] + more) == Load(env, before)
    decreases |before|
  {
    if before == [] {
      SplitFront(before, line, more);
      LoadHeadLine(env, line, more);
    } else {
      var rest := before[1..];
      SplitFront(before, line, more);
      LoadHeadLine(env, before[0], rest + [line] + more);
      LoadHeadLine(env, before[0], rest);
      match LoadOneLine(env, before[0])
      case None =>
      case Some(next) => AbortIgnoresRest(next, rest, line, more);
    }
  }

  /** A line giving a new key, whose key or value holds a NUL, ends the
      load: neither it nor any later line changes the environment. */
  lemma NulLineEndsLoad(env: Env, before: seq<string>, line: string, more: seq<string>)
    requires ParseLine(line).Some? && Aborts(ParseLine(line).value)
    requires ParseLine(line).value.key !in Load(env, before)
    ensures Load(env, before + [line] + more) == Load(env, before)
  {
    AbortIgnoresRest(env, before, line, more);
  }

  /** A sequence is what comes before its `i`-th element, that element,
      and what comes after. */
  lemma SplitAround<T>(s: seq<T>, i: nat)
    requires i < |s|
    ensures s == s[..i] + [s[i]] + s[i + 1..]
  {
  }

  /** Regrouping `a + [x] + b` around the first element of `a`. */
  lemma SplitFront<T>(a: seq<T>, x: T, b: seq<T>)
    ensures a == [] ==> a + [x] + b == [x] + b
    ensures a != [] ==> a + [x] + b == [a[0]] + (a[1..] + [x] + b) && a == [a[0]] + a[1..]
  {
  }

  /** The load of a line followed by more lines: it stops on an abort, and
      otherwise goes on from the line's environment. */
  lemma LoadHeadLine(env: Env, line: string, more: seq<string>)
    ensures LoadOneLine(env, line).None? ==> Load(env, [line] + more) == env
    ensures LoadOneLine(env, line).Some? ==> Load(env, [line] + more) == Load(LoadOneLine(env, line).value, more)
  {
    ConsParts(line, more);
  }

  /** The head and the tail of `[x] + s`. */
  lemma ConsParts<T>(x: T, s: seq<T>)
    ensures ([x] + s)[0] == x && ([x] + s)[1..] == s
  {
  }

  /** One iteration of the loop: the environment after `line`, or `None`
      when the line aborts the load. */
  function LoadOneLine(env: Env, line: string): (r: Option<Env>)
    ensures r.Some? ==> forall k :: k in env ==> k in r.value && r.value[k] == env[k]
    ensures r.Some? ==> forall k :: k in r.value && k !in env ==> r.value[k] != "" && k != ""
  {
    Apply(env, ParseLine(line))
  }

  /** What one parsed line does to the environment: nothing without an
      entry or for a key already set, an abort for a NUL, and otherwise
      the new key is set. */
  function Apply(env: Env, parsed: Option<Entry>): (r: Option<Env>)
    requires parsed.Some? ==> parsed.value.key != "" && parsed.value.value != ""
    ensures r.Some? ==> forall k :: k in env ==> k in r.value && r.value[k] == env[k]
    ensures r.Some? ==> forall k :: k in r.value && k !in env ==> r.value[k] != "" && k != ""
    ensures r.None? <==> parsed.Some? && parsed.value.key !in env && Aborts(parsed.value)
    ensures r.Some? && parsed.Some? && parsed.value.key !in env ==>
              parsed.value.key in r.value && r.value[parsed.value.key] == parsed.value.value
    ensures r.Some? ==> r.value.Keys <= env.Keys + (if parsed.Some? then {parsed.value.key} else {})
  {
    match parsed
    case None => Some(env)
    case Some(e) =>
      if e.key in env then Some(env)
      else if Aborts(e) then None
      else Some(env[e.key := e.value])
  }

  /** The value the first line that sets `key` gives it. */
  function FirstValue(lines: seq<string>, key: string): Option<string> {
    if lines == [] then None
    else match ParseLine(lines[0])
      case Some(e) => if e.key == key then Some(e.value) else FirstValue(lines[1..], key)
      case None => FirstValue(lines[1..], key)
  }

  /** No line carries a NUL character. */
  predicate NulFree(lines: seq<string>) {
    forall n :: 0 <= n < |lines| ==> '\0' !in lines[n]
  }

  /** The key and value of a parsed line are made of the line's characters,
      so a line without NUL never aborts the load. */
  lemma NulFreeParts(raw: string, e: Entry)
    requires ParseLine(raw) == Some(e)
    requires '\0' !in raw
    ensures !Aborts(e)
  {
    var line := Strip(raw);
    var i := IndexOf(line, '=');
    assert e.key == Strip(line[..i]) && e.value == Strip(line[i + 1..]);
    if '\0' in e.key {
      StripKeepsChars(line[..i], '\0');
      StripKeepsChars(raw, '\0');
    }
    if '\0' in e.value {
      StripKeepsChars(line[i + 1..], '\0');
      StripKeepsChars(raw, '\0');
    }
  }

  /** First occurrence wins: for a key not in the starting environment, the
      load sets it exactly when some line provides it, to the value of the
      first such line; later lines for the same key are ignored. */
  lemma {:induction false} FirstOccurrenceWins(env: Env, lines: seq<string>, key: string)
    requires NulFree(lines)
    requires key !in env
    ensures key in Load(env, lines) <==> FirstValue(lines, key).Some?
    ensures key in Load(env, lines) ==> Load(env, lines)[key] == FirstValue(lines, key).value
    decreases |lines|
  {
    if lines != [] {
      NulFreeTail(lines);
      NeverAborts(env, lines[0]);
      var next := LoadOneLine(env, lines[0]).value;
      if key in next {
        SetByFirstLine(env, lines, key);
      } else {
        FirstValueSkips(env, lines, key);
        FirstOccurrenceWins(next, lines[1..], key);
      }
    }
  }

  lemma SetByFirstLine(env: Env, lines: seq<string>, key: string)
    requires lines != [] && key !in env && '\0' !in lines[0]
    requires LoadOneLine(env, lines[0]).Some? && key in LoadOneLine(env, lines[0]).value
    ensures key in Load(env, lines)
    ensures FirstValue(lines, key) == Some(Load(env, lines)[key])
  {
    var value := FirstLineSets(env, lines[0], key);
    LoadHead(env, lines, env[key := value]);
    FirstValueHead(lines, Entry(key, value));
  }

  /** The load continues from what the first line gives. */
  lemma LoadHead(env: Env, lines: seq<string>, next: Env)
    requires lines != [] && LoadOneLine(env, lines[0]) == Some(next)
    ensures Load(env, lines) == Load(next, lines[1..])
  {
  }

  /** A first line for `e.key` decides its first value. */
  lemma FirstValueHead(lines: seq<string>, e: Entry)
    requires lines != [] && ParseLine(lines[0]) == Some(e)
    ensures FirstValue(lines, e.key) == Some(e.value)
  {
  }

  /** A line that sets a key absent from `env` is a line for that key. */
  lemma FirstLineSets(env: Env, line: string, key: string) returns (value: string)
    requires key !in env && '\0' !in line
    requires LoadOneLine(env, line).Some? && key in LoadOneLine(env, line).value
    ensures ParseLine(line) == Some(Entry(key, value))
    ensures LoadOneLine(env, line) == Some(env[key := value])
  {
    var e := ParseLine(line).value;
    NulFreeParts(line, e);
    value := e.value;
  }

  lemma FirstValueSkips(env: Env, lines: seq<string>, key: string)
    requires lines != [] && key !in env && '\0' !in lines[0]
    requires LoadOneLine(env, lines[0]).Some? && key !in LoadOneLine(env, lines[0]).value
    ensures FirstValue(lines, key) == FirstValue(lines[1..], key)
  {
    if ParseLine(lines[0]).Some? {
      NulFreeParts(lines[0], ParseLine(lines[0]).value);
    }
  }

  lemma NeverAborts(env: Env, line: string)
    requires '\0' !in line
    ensures LoadOneLine(env, line).Some?
  {
    if ParseLine(line).Some? {
      NulFreeParts(line, ParseLine(line).value);
    }
  }

  lemma NulFreeTail(lines: seq<string>)
    requires lines != [] && NulFree(lines)
    ensures NulFree(lines[1..]) && '\0' !in lines[0]
  {
    forall n | 0 <= n < |lines[1..]|
      ensures '\0' !in lines[1..][n]
    {
      assert lines[1..][n] == lines[n + 1];
    }
  }

  /** Writing a key and a value as `key=value` and parsing the line gives
      them back, whatever the value holds, `=` included: only the first `=`
      separates. */
  lemma ParseLineOfEntry(key: string, value: string)
    requires key != "" && value != "" && Stripped(key) && Stripped(value)
    requires '=' !in key && key[0] != '#'
    ensures ParseLine(key + "=" + value) == Some(Entry(key, value))
  {
    var line := key + "=" + value;
    assert line[0] == key[0] && line[|line| - 1] == value[|value| - 1];
    assert Stripped(line);
    SplitsAtKey(key, value);
    assert line[..|key|] == key;
    assert line[|key| + 1..] == value;
  }

  /** The key and the value are trimmed on both sides of the first `=`:
      `  key  =  value  `, with any whitespace in the four gaps, parses to
      the same entry as `key=value`. */
  lemma ParseLineOfPaddedEntry(w1: string, key: string, w2: string, w3: string, value: string, w4: string)
    requires key != "" && value != "" && Stripped(key) && Stripped(value)
    requires '=' !in key && key[0] != '#'
    requires AllSpace(w1) && AllSpace(w2) && AllSpace(w3) && AllSpace(w4)
    ensures ParseLine(w1 + key + w2 + "=" + w3 + value + w4) == Some(Entry(key, value))
  {
    var raw := w1 + key + w2 + "=" + w3 + value + w4;
    var line := key + w2 + "=" + w3 + value;
    PaddedLineStrips(w1, key, w2, w3, value, w4);
    var i := PaddedCut(line, key, w2, w3, value);
    ParseLineSplit(raw, line, i, key, value);
  }

  /** The whitespace around a padded entry is what `strip` removes. */
  lemma PaddedLineStrips(w1: string, key: string, w2: string, w3: string, value: string, w4: string)
    requires key != "" && value != "" && Stripped(key) && Stripped(value)
    requires AllSpace(w1) && AllSpace(w4)
    ensures Strip(w1 + key + w2 + "=" + w3 + value + w4) == key + w2 + "=" + w3 + value
  {
    var line := key + w2 + "=" + w3 + value;
    assert line[0] == key[0] && line[|line| - 1] == value[|value| - 1];
    assert w1 + key + w2 + "=" + w3 + value + w4 == w1 + line + w4;
    StripPadded(w1, line, w4);
  }

  /** The stripped line `key` `w2` `=` `w3` `value` is no comment, and its
      first `=` cuts it into `key` and `value` once both halves are
      trimmed. */
  lemma PaddedCut(line: string, key: string, w2: string, w3: string, value: string) returns (i: nat)
    requires key != "" && Stripped(key) && Stripped(value)
    requires '=' !in key && key[0] != '#' && AllSpace(w2) && AllSpace(w3)
    requires line == key + w2 + "=" + w3 + value
    ensures line != [] && line[0] != '#' && '=' in line
    ensures i == IndexOf(line, '=') && i + 1 <= |line|
    ensures Strip(line[..i]) == key && Strip(line[i + 1..]) == value
  {
    assert line == (key + w2) + "=" + (w3 + value);
    SplitsAtKey(key + w2, w3 + value);
    i := |key| + |w2|;
    assert line[..i] == key + w2;
    assert line[i + 1..] == w3 + value;
    StripTrailing(key, w2);
    StripLeading(w3, value);
  }

  /** A line whose stripped form is cut at its first `=` into a non-empty
      trimmed key and value, and is no comment, parses to that entry. */
  lemma ParseLineSplit(raw: string, line: string, i: nat, key: string, value: string)
    requires Strip(raw) == line
    requires line != [] && line[0] != '#' && '=' in line
    requires i == IndexOf(line, '=')
    requires Strip(line[..i]) == key && Strip(line[i + 1..]) == value
    requires key != "" && value != ""
    ensures ParseLine(raw) == Some(Entry(key, value))
  {
  }

  /** The first `=` of `key=value` is the one after the key. */
  lemma SplitsAtKey(key: string, value: string)
    requires '=' !in key
    ensures '=' in key + "=" + value
    ensures IndexOf(key + "=" + value, '=') == |key|
  {
    var line := key + "=" + value;
    assert line[|key|] == '=';
  }
}
