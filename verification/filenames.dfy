/** File names for synthesized audio: `sanitize_filename`,
    `unique_audio_basename`, the target path inside the audio directory, and
    the POSIX path helpers they use (`os.path.basename`, `os.path.join`,
    `os.path.splitext`). */
module Filenames {
  import opened Text
  import opened Encoding

  /** The characters `sanitize_filename` rewrites to `_`: its
      `invalid_chars` list, then space and plus. */
  predicate Unsafe(c: char) {
    || c == '\\' || c == '/' || c == ':' || c == '*' || c == '?'
    || c == '"' || c == '<' || c == '>' || c == '|'
    || c == ' ' || c == '+'
  }

  /** What `sanitize_filename` does to one character. */
  function SafeChar(c: char): (d: char)
    ensures !Unsafe(d)
    ensures !Unsafe(c) ==> d == c
  {
    if Unsafe(c) then '_' else c
  }

  /** A name `sanitize_filename` leaves unchanged. */
  predicate Safe(s: string) {
    forall i :: 0 <= i < |s| ==> !Unsafe(s[i])
  }

  /** `s.replace(c, with)` for a single character `c`. */
  function Replace(s: string, c: char, with: char): (r: string)
    ensures |r| == |s|
    ensures forall i :: 0 <= i < |s| ==> r[i] == if s[i] == c then with else s[i]
  {
    seq(|s|, i requires 0 <= i < |s| => if s[i] == c then with else s[i])
  }

  /** The replacements of `sanitize_filename` in source order: the loop over
      `invalid_chars` (backslash, slash, colon, star, question mark, double
      quote, less-than, greater-than, bar), then space, then plus. */
  function ReplaceUnsafe(name: string): string {
    var s := Replace(Replace(Replace(name, '\\', '_'), '/', '_'), ':', '_');
    var s := Replace(Replace(Replace(s, '*', '_'), '?', '_'), '"', '_');
    var s := Replace(Replace(Replace(s, '<', '_'), '>', '_'), '|', '_');
    Replace(Replace(s, ' ', '_'), '+', '_')
  }

  /** POSIX `os.path.basename`: what follows the last `/`. */
  function Basename(p: string): (r: string)
    ensures '/' !in r
    ensures |r| <= |p| && r == p[|p| - |r|..]
    ensures |r| < |p| ==> p[|p| - |r| - 1] == '/'
    ensures '/' !in p ==> r == p
    decreases |p|
  {
    if p == [] || p[|p| - 1] == '/' then []
    else
      var init, last := p[..|p| - 1], p[|p| - 1];
      var tail := Basename(init);
      var r := tail + [last];
      assert p == init + [last];
      assert p[|p| - |r|..] == init[|init| - |tail|..] + [last];
      assert '/' !in p ==> '/' !in init by {
        if '/' in init {
          var k :| 0 <= k < |init| && init[k] == '/';
          assert p[k] == '/';
        }
      }
      r
  }

  /** `sanitize_filename`: every unsafe character becomes `_` and every
      other character is kept, so no path separator survives. Dots are
      kept, so `..` stays `..`. `SanitizeMatchesSource` shows this is the
      function's chain of replacements followed by its `basename`. */
  function Sanitize(name: string): (r: string)
    ensures |r| == |name|
    ensures forall i :: 0 <= i < |name| ==> r[i] == SafeChar(name[i])
  {
    seq(|name|, i requires 0 <= i < |name| => SafeChar(name[i]))
  }

  /** The replacements in source order, then `os.path.basename`, give the
      per-character form: after the replacements no `/` is left, so the
      final `basename` keeps the whole string. */
  lemma SanitizeMatchesSource(name: string)
    ensures Basename(ReplaceUnsafe(name)) == Sanitize(name)
  {
    var replaced := ReplaceUnsafe(name);
    assert forall i :: 0 <= i < |name| ==> replaced[i] == SafeChar(name[i]);
    assert replaced == Sanitize(name);
  }

  /** No unsafe character survives sanitizing. */
  lemma SanitizedIsSafe(name: string)
    ensures Safe(Sanitize(name))
  {
    var r := Sanitize(name);
    forall i | 0 <= i < |r|
      ensures !Unsafe(r[i])
    {
      assert r[i] == SafeChar(name[i]);
    }
  }

  /** A name without unsafe characters is its own sanitized form. */
  lemma SanitizeSafe(name: string)
    requires Safe(name)
    ensures Sanitize(name) == name
  {
    var r := Sanitize(name);
    forall i | 0 <= i < |name|
      ensures r[i] == name[i]
    {
      assert r[i] == SafeChar(name[i]);
    }
  }

  /** Sanitizing twice is sanitizing once. */
  lemma SanitizeIdempotent(name: string)
    ensures Sanitize(Sanitize(name)) == Sanitize(name)
  {
    SanitizedIsSafe(name);
    SanitizeSafe(Sanitize(name));
  }

  /** Sanitizing works character by character, so it distributes over
      concatenation. */
  lemma SanitizeConcat(a: string, b: string)
    ensures Sanitize(a + b) == Sanitize(a) + Sanitize(b)
  {
    var l, r := Sanitize(a + b), Sanitize(a) + Sanitize(b);
    forall i | 0 <= i < |l|
      ensures l[i] == r[i]
    {
      if i < |a| {
        assert (a + b)[i] == a[i];
        assert l[i] == SafeChar(a[i]);
        assert r[i] == Sanitize(a)[i];
      } else {
        assert (a + b)[i] == b[i - |a|];
        assert l[i] == SafeChar(b[i - |a|]);
        assert r[i] == Sanitize(b)[i - |a|];
      }
    }
  }

  /** A traversal attempt loses its separators but keeps its dots. */
  lemma SanitizeTraversal()
    ensures Sanitize("../../etc/x") == ".._.._etc_x"
    ensures Sanitize("..") == ".."
  {
  }

  /** The audio output directory, `AUDIO_OUTPUT_DIR`. */
  const AudioDir: string := "audio"

  /** POSIX `os.path.join(a, b)`. */
  function Join(a: string, b: string): (p: string)
    ensures EndsWith(p, b)
    ensures [ '/' ] <= b ==> p == b
    ensures !([ '/' ] <= b) ==> a <= p && |p| == |a| + |b| + (if a == [] || EndsWith(a, "/") then 0 else 1)
    ensures !([ '/' ] <= b) && |p| > |a| + |b| ==> p[|a|] == '/'
  {
    if [ '/' ] <= b then b
    else if a == [] || EndsWith(a, "/") then a + b
    else a + "/" + b
  }

  /** The final component of `dir/name` is `name` when `name` has no
      separator. */
  lemma {:induction false} BasenameOfJoined(dir: string, name: string)
    requires '/' !in name
    ensures Basename(dir + "/" + name) == name
    decreases |name|
  {
    var p := dir + "/" + name;
    if name != [] {
      var init := name[..|name| - 1];
      assert p[..|p| - 1] == dir + "/" + init;
      assert '/' !in init by {
        forall i | 0 <= i < |init|
          ensures init[i] != '/'
        {
          assert init[i] == name[i];
        }
      }
      BasenameOfJoined(dir, init);
      assert name == init + [name[|name| - 1]];
    }
  }

  /** The path `text_to_speech_murf` writes to: the sanitized name directly
      inside the audio directory, which `basename` recovers. */
  function TargetPath(filename: string): (path: string)
    ensures path == AudioDir + "/" + Sanitize(filename)
    ensures Basename(path) == Sanitize(filename)
  {
    var safe := Sanitize(filename);
    SanitizedIsSafe(filename);
    assert !([ '/' ] <= safe) by {
      if |safe| > 0 {
        assert !Unsafe(safe[0]);
      }
    }
    assert '/' !in safe by {
      forall i | 0 <= i < |safe|
        ensures safe[i] != '/'
      {
        assert !Unsafe(safe[i]);
      }
    }
    BasenameOfJoined(AudioDir, safe);
    Join(AudioDir, safe)
  }

  /** Concatenating names without unsafe characters gives one. */
  lemma SafeConcat(a: string, b: string)
    requires Safe(a) && Safe(b)
    ensures Safe(a + b)
  {
    forall i | 0 <= i < |a + b|
      ensures !Unsafe((a + b)[i])
    {
      if i < |a| {
        assert (a + b)[i] == a[i];
      } else {
        assert (a + b)[i] == b[i - |a|];
      }
    }
  }

  /** Strings of hexadecimal digits have no unsafe characters. */
  lemma DigitsAreSafe(s: string)
    requires forall i :: 0 <= i < |s| ==> IsHexDigit(s[i])
    ensures Safe(s)
  {
    forall i | 0 <= i < |s|
      ensures !Unsafe(s[i])
    {
      assert IsHexDigit(s[i]);
    }
  }

  /** `unique_audio_basename(identifier, kind)`, with the millisecond clock
      reading and the random bytes passed in. The name starts with the
      sanitized identifier (`unknown` when it is empty) and the kind, and
      ends in `.mp3`. */
  function UniqueAudioBasename(identifier: string, kind: string, clockMs: nat, random: seq<byte>): (name: string)
    ensures Sanitize(if identifier == "" then "unknown" else identifier) + "_" + kind + "_" <= name
    ensures EndsWith(name, ".mp3")
  {
    var safeId := Sanitize(if identifier == "" then "unknown" else identifier);
    safeId + "_" + kind + "_" + Decimal(clockMs) + "_" + Hex(random) + ".mp3"
  }

  /** A generated name has no unsafe character when the kind has none. */
  lemma GeneratedNameIsSafe(identifier: string, kind: string, clockMs: nat, random: seq<byte>)
    requires Safe(kind)
    ensures Safe(UniqueAudioBasename(identifier, kind, clockMs, random))
  {
    var safeId := Sanitize(if identifier == "" then "unknown" else identifier);
    var stamp, suffix := Decimal(clockMs), Hex(random);
    SanitizedIsSafe(if identifier == "" then "unknown" else identifier);
    DigitsAreSafe(stamp);
    DigitsAreSafe(suffix);
    SeparatorsAreSafe();
    var a := safeId + "_";
    SafeConcat(safeId, "_");
    var b := a + kind;
    SafeConcat(a, kind);
    var c := b + "_";
    SafeConcat(b, "_");
    var d := c + stamp;
    SafeConcat(c, stamp);
    var e := d + "_";
    SafeConcat(d, "_");
    var f := e + suffix;
    SafeConcat(e, suffix);
    SafeConcat(f, ".mp3");
  }

  /** The separator and the extension of a generated name are safe. */
  lemma SeparatorsAreSafe()
    ensures Safe("_") && Safe(".mp3")
  {
  }

  /** A generated name passes through `sanitize_filename` unchanged, so the
      synthesizer writes, and the audio route serves, exactly that name. */
  lemma GeneratedNameIsSanitized(identifier: string, kind: string, clockMs: nat, random: seq<byte>)
    requires Safe(kind)
    ensures Sanitize(UniqueAudioBasename(identifier, kind, clockMs, random)) == UniqueAudioBasename(identifier, kind, clockMs, random)
  {
    GeneratedNameIsSafe(identifier, kind, clockMs, random);
    SanitizeSafe(UniqueAudioBasename(identifier, kind, clockMs, random));
  }

  /** For one user and kind, different clock readings or different random
      suffixes (of the one length `os.urandom(3)` gives) always give
      different names. */
  lemma {:induction false} UniqueNamesDiffer(identifier: string, kind: string, t1: nat, r1: seq<byte>, t2: nat, r2: seq<byte>)
    requires |r1| == |r2|
    requires UniqueAudioBasename(identifier, kind, t1, r1) == UniqueAudioBasename(identifier, kind, t2, r2)
    ensures t1 == t2 && r1 == r2
  {
    var prefix := Sanitize(if identifier == "" then "unknown" else identifier) + "_" + kind + "_";
    var n1 := UniqueAudioBasename(identifier, kind, t1, r1);
    var d1, d2 := Decimal(t1), Decimal(t2);
    var h1, h2 := Hex(r1), Hex(r2);
    assert n1 == prefix + d1 + "_" + h1 + ".mp3";
    assert n1 == prefix + d2 + "_" + h2 + ".mp3";
    assert |d1| == |d2|;
    assert d1 == n1[|prefix|..|prefix| + |d1|];
    assert d2 == n1[|prefix|..|prefix| + |d2|];
    DecimalInjective(t1, t2);
    assert h1 == n1[|prefix| + |d1| + 1..|prefix| + |d1| + 1 + |h1|];
    assert h2 == n1[|prefix| + |d2| + 1..|prefix| + |d2| + 1 + |h2|];
    HexInjective(r1, r2);
  }

  /** The index of the last `c` in `s`, or -1 (`str.rfind`). */
  function LastIndex(s: string, c: char): (i: int)
    ensures -1 <= i < |s|
    ensures i >= 0 ==> s[i] == c
    ensures forall j :: i < j < |s| ==> s[j] != c
    decreases |s|
  {
    if s == [] then -1
    else if s[|s| - 1] == c then |s| - 1
    else LastIndex(s[..|s| - 1], c)
  }

  /** POSIX `os.path.splitext(p)[1]`: from the last dot of the final path
      component to the end, unless every character before that dot in the
      component is itself a dot (so `.bashrc` has no extension). */
  function Extension(p: string): (ext: string)
    ensures ext == [] || (ext[0] == '.' && EndsWith(p, ext) && '.' !in ext[1..] && '/' !in ext)
  {
    var sep := LastIndex(p, '/');
    var dot := LastIndex(p, '.');
    if dot > sep && exists k :: sep + 1 <= k < dot && p[k] != '.' then
      p[dot..]
    else []
  }

  /** A name made of a stem with some non-dot character, a dot and a
      dot-free, separator-free tail has exactly that tail as its extension. */
  lemma ExtensionOfSuffix(stem: string, e: string)
    requires '/' !in stem && '/' !in e && '.' !in e
    requires exists k :: 0 <= k < |stem| && stem[k] != '.'
    ensures Extension(stem + "." + e) == "." + e
  {
    var p := stem + "." + e;
    var dot := LastIndex(p, '.');
    var sep := LastIndex(p, '/');
    assert p[|stem|] == '.';
    assert dot == |stem|;
    assert sep == -1;
    var k :| 0 <= k < |stem| && stem[k] != '.';
    assert p[k] == stem[k];
    assert p[dot..] == "." + e;
  }

  /** A name whose characters before its last dot are all dots (`.wav`,
      `..ogg`) is a dot-file: `splitext` gives it no extension. */
  lemma ExtensionOfDotfile(dots: string, e: string)
    requires forall k :: 0 <= k < |dots| ==> dots[k] == '.'
    requires '/' !in dots && '/' !in e && '.' !in e
    ensures Extension(dots + "." + e) == []
  {
    var p := dots + "." + e;
    assert p[|dots|] == '.';
    assert LastIndex(p, '.') == |dots|;
    assert LastIndex(p, '/') == -1;
    forall k | 0 <= k < |dots|
      ensures p[k] == '.'
    {
      assert p[k] == dots[k];
    }
  }
}
