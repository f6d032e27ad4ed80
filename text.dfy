/**
 * String helpers over ASCII text: the handler's three regular expressions
 * written as predicates, Python's `str.lower`, `str.strip`, `str.split`,
 * `str.join` and string ordering.
 */
module Text {
  import opened Common

  /** Python's whitespace on ASCII: space, \t, \n, \v, \f, \r. */
  predicate IsSpace(c: char) { c == ' ' || ('\t' <= c <= '\r') }

  predicate IsLetter(c: char) { ('a' <= c <= 'z') || ('A' <= c <= 'Z') }

  predicate IsDigit(c: char) { '0' <= c <= '9' }

  /** `\w` of an ASCII regular expression. */
  predicate IsWordChar(c: char) { IsLetter(c) || IsDigit(c) || c == '_' }

  function LowerChar(c: char): char
  {
    if 'A' <= c <= 'Z' then (c as int + 32) as char else c
  }

  /** `str.lower()` on ASCII letters; every other character is kept. */
  function Lower(s: string): (r: string)
    ensures |r| == |s|
    ensures forall i :: 0 <= i < |s| ==> r[i] == LowerChar(s[i])
  {
    if s == [] then [] else [LowerChar(s[0])] + Lower(s[1..])
  }

  /**
   * The text a pattern ending in `$` is matched against: `$` also matches
   * just before one final newline, which the pattern's body cannot consume.
   */
  function Chomp(s: string): (t: string)
    ensures if |s| > 0 && s[|s| - 1] == '\n' then s == t + "\n" else t == s
  {
    if |s| > 0 && s[|s| - 1] == '\n' then s[..|s| - 1] else s
  }

  /** `re.search('(?i)^ami-\w+?$', s)` succeeds. */
  predicate IsAmiId(s: string)
  {
    var t := Chomp(s);
    |t| > 4 && Lower(t[..4]) == "ami-" && forall i :: 4 <= i < |t| ==> IsWordChar(t[i])
  }

  /** `re.search('(?i)^i-[a-z0-9]+?$', s)` succeeds. */
  predicate IsInstanceId(s: string)
  {
    var t := Chomp(s);
    |t| > 2 && Lower(t[..2]) == "i-" && forall i :: 2 <= i < |t| ==> IsLetter(t[i]) || IsDigit(t[i])
  }

  lemma AmiIdExamples()
    ensures IsAmiId("ami-0abc") && IsAmiId("AMI-0\n")
    ensures !IsAmiId("not-an-ami") && !IsAmiId("ami-")
  {
    assert IsAmiId("ami-0abc") by {
      var t := "ami-0abc";
      assert Chomp(t) == t && t[..4] == "ami-";
      assert IsWordChar(t[4]) && IsWordChar(t[5]) && IsWordChar(t[6]) && IsWordChar(t[7]);
      AmiPrefixLowered("ami-");
    }
    assert IsAmiId("AMI-0\n") by {
      var t := "AMI-0";
      assert Chomp("AMI-0\n") == t && t[..4] == "AMI-" && IsWordChar(t[4]);
      AmiPrefixLowered("AMI-");
    }
    assert !IsAmiId("not-an-ami") by {
      assert Lower("not-")[0] == 'n';
    }
  }

  /** Both spellings of the image-id prefix lower to `ami-`. */
  lemma AmiPrefixLowered(p: string)
    requires p == "ami-" || p == "AMI-"
    ensures Lower(p) == "ami-"
  {
    assert Lower(p)[0] == 'a' && Lower(p)[1] == 'm' && Lower(p)[2] == 'i' && Lower(p)[3] == '-';
  }

  lemma InstanceIdExamples()
    ensures IsInstanceId("i-0123abcd") && !IsInstanceId("i-0123_abcd") && !IsInstanceId("ami-0abc123")
  {
    assert Lower("i-") == "i-";
    assert Lower("am") == "am";
    assert "i-0123_abcd"[6] == '_';
  }

  // ---------------------------------------------------------------- strip

  function TrimLeft(s: string): (r: string)
    ensures |r| <= |s| && r == s[|s| - |r|..]
    ensures forall i :: 0 <= i < |s| - |r| ==> IsSpace(s[i])
    ensures r == [] || !IsSpace(r[0])
  {
    if s != [] && IsSpace(s[0]) then TrimLeft(s[1..]) else s
  }

  function TrimRight(s: string): (r: string)
    ensures |r| <= |s| && r == s[..|r|]
    ensures forall i :: |r| <= i < |s| ==> IsSpace(s[i])
    ensures r == [] || !IsSpace(r[|r| - 1])
  {
    if s != [] && IsSpace(s[|s| - 1]) then TrimRight(s[..|s| - 1]) else s
  }

  /** `str.strip()`: drops leading and trailing whitespace. */
  function Strip(s: string): (r: string)
    ensures r == [] || (!IsSpace(r[0]) && !IsSpace(r[|r| - 1]))
  {
    var l := TrimLeft(s);
    var r := TrimRight(l);
    TrimBothSlice(s, l, r);
    r
  }

  /**
   * What strip removes is whitespace and nothing else: the result is the
   * slice `s[i..i + |Strip(s)|]`, with only whitespace before and after it.
   */
  lemma {:induction false} StripIsSlice(s: string)
    ensures var r, i := Strip(s), |s| - |TrimLeft(s)|;
            && i + |r| <= |s| && r == s[i..i + |r|]
            && (forall k :: 0 <= k < i ==> IsSpace(s[k]))
            && (forall k :: i + |r| <= k < |s| ==> IsSpace(s[k]))
  {
    var l := TrimLeft(s);
    TrimBothSlice(s, l, TrimRight(l));
  }

  /** A prefix of a suffix is a slice; what the prefix leaves off stays whitespace in the whole. */
  lemma {:induction false} TrimBothSlice(s: string, l: string, r: string)
    requires |l| <= |s| && l == s[|s| - |l|..]
    requires |r| <= |l| && r == l[..|r|]
    requires forall k :: |r| <= k < |l| ==> IsSpace(l[k])
    requires (l == [] || !IsSpace(l[0])) && (r == [] || !IsSpace(r[|r| - 1]))
    ensures r == [] || (!IsSpace(r[0]) && !IsSpace(r[|r| - 1]))
    ensures var i := |s| - |l|;
            r == s[i..i + |r|] && forall k :: i + |r| <= k < |s| ==> IsSpace(s[k])
  {
    assert r != [] ==> r[0] == l[0];
    var i := |s| - |l|;
    assert forall k :: 0 <= k < |r| ==> r[k] == s[i + k];
    forall k | i + |r| <= k < |s| ensures IsSpace(s[k]) {
      assert s[k] == l[k - i];
    }
  }

  /** A string is left unchanged by `strip()` exactly when it has no outer whitespace. */
  lemma StripFixedPoint(s: string)
    ensures Strip(s) == s <==> (s == [] || (!IsSpace(s[0]) && !IsSpace(s[|s| - 1])))
  {
    if s != [] && !IsSpace(s[0]) && !IsSpace(s[|s| - 1]) {
      assert TrimLeft(s) == s;
      assert TrimRight(s) == s;
    }
  }

  lemma StripIdempotent(s: string)
    ensures Strip(Strip(s)) == Strip(s)
  {
    StripFixedPoint(Strip(s));
  }

  // ------------------------------------------------------- split and join

  function IndexOf(s: string, c: char): (i: nat)
    requires c in s
    ensures i < |s| && s[i] == c && c !in s[..i]
  {
    if s[0] == c then 0 else 1 + IndexOf(s[1..], c)
  }

  lemma {:induction false} IndexOfFirst(s: string, c: char, j: nat)
    requires j < |s| && s[j] == c && c !in s[..j]
    ensures IndexOf(s, c) == j
  {
    if j > 0 {
      assert s[0] == s[..j][0];
      assert s[1..][..j - 1] == s[..j][1..];
      IndexOfFirst(s[1..], c, j - 1);
    }
  }

  /** `s.split(sep)` for a one-character separator: empty fields are kept. */
  function Split(s: string, sep: char): (parts: seq<string>)
    ensures |parts| > 0
    ensures forall p :: p in parts ==> sep !in p
    decreases |s|
  {
    if sep in s then
      var i := IndexOf(s, sep);
      [s[..i]] + Split(s[i + 1..], sep)
    else
      [s]
  }

  /** `sep.join(parts)`. */
  function Join(parts: seq<string>, sep: string): string
  {
    if parts == [] then ""
    else if |parts| == 1 then parts[0]
    else parts[0] + sep + Join(parts[1..], sep)
  }

  /** Joining the fields of a split gives back the original text. */
  lemma {:induction false} JoinSplit(s: string, sep: char)
    ensures Join(Split(s, sep), [sep]) == s
    decreases |s|
  {
    if sep in s {
      var i := IndexOf(s, sep);
      var rest := Split(s[i + 1..], sep);
      JoinSplit(s[i + 1..], sep);
      var parts := Split(s, sep);
      assert parts == [s[..i]] + rest && |parts| > 1 && parts[1..] == rest;
      assert Join(parts, [sep]) == s[..i] + [sep] + Join(rest, [sep]);
      assert s == s[..i] + [sep] + s[i + 1..];
    }
  }

  /** Splitting a join of separator-free fields gives back the fields. */
  lemma {:induction false} SplitJoin(parts: seq<string>, sep: char)
    requires |parts| > 0
    requires forall p :: p in parts ==> sep !in p
    ensures Split(Join(parts, [sep]), sep) == parts
  {
    if |parts| > 1 {
      var s := Join(parts, [sep]);
      var tail := Join(parts[1..], [sep]);
      assert s == parts[0] + [sep] + tail;
      assert parts[0] in parts;
      assert s[|parts[0]|] == sep;
      assert s[..|parts[0]|] == parts[0];
      IndexOfFirst(s, sep, |parts[0]|);
      assert s[|parts[0]| + 1..] == tail;
      forall p | p in parts[1..] ensures sep !in p {
        assert p in parts;
      }
      SplitJoin(parts[1..], sep);
    }
  }

  /** `part in text` for Python strings: `part` occurs as a substring. */
  ghost predicate Contains(text: string, part: string)
  {
    exists k :: OccursAt(text, part, k)
  }

  predicate OccursAt(text: string, part: string, k: int)
  {
    0 <= k && k + |part| <= |text| && text[k..k + |part|] == part
  }

  /** Each joined part occurs in the joined text. */
  lemma {:induction false} JoinContains(parts: seq<string>, sep: string, i: nat)
    requires i < |parts|
    ensures Contains(Join(parts, sep), parts[i])
  {
    var text := Join(parts, sep);
    if |parts| == 1 {
      assert OccursAt(text, parts[0], 0);
    } else if i == 0 {
      assert text == parts[0] + (sep + Join(parts[1..], sep));
      assert OccursAt(text, parts[0], 0);
    } else {
      var tail := Join(parts[1..], sep);
      JoinContains(parts[1..], sep, i - 1);
      var k :| OccursAt(tail, parts[i], k);
      var head := parts[0] + sep;
      assert text == head + tail;
      var k' := |head| + k;
      assert text[k'..k' + |parts[i]|] == tail[k..k + |parts[i]|];
      assert OccursAt(text, parts[i], k');
    }
  }

  // ------------------------------------------------------------ ordering

  /** Python's `a <= b` on strings: lexicographic by code point. */
  predicate StrLe(a: string, b: string)
  {
    a == [] || (b != [] && (a[0] < b[0] || (a[0] == b[0] && StrLe(a[1..], b[1..]))))
  }

  /** Python's `a < b` on strings. */
  predicate StrLt(a: string, b: string) { StrLe(a, b) && a != b }

  lemma {:induction false} StrLeReflexive(a: string)
    ensures StrLe(a, a)
  {
    if a != [] { StrLeReflexive(a[1..]); }
  }

  lemma {:induction false} StrLeTotal(a: string, b: string)
    ensures StrLe(a, b) || StrLe(b, a)
  {
    if a != [] && b != [] && a[0] == b[0] { StrLeTotal(a[1..], b[1..]); }
  }

  lemma {:induction false} StrLeAntisymmetric(a: string, b: string)
    requires StrLe(a, b) && StrLe(b, a)
    ensures a == b
  {
    if a != [] && b != [] {
      StrLeAntisymmetric(a[1..], b[1..]);
      assert a == [a[0]] + a[1..] && b == [b[0]] + b[1..];
    }
  }

  lemma {:induction false} StrLeTransitive(a: string, b: string, c: string)
    requires StrLe(a, b) && StrLe(b, c)
    ensures StrLe(a, c)
  {
    if a != [] && a[0] == b[0] && b[0] == c[0] {
      StrLeTransitive(a[1..], b[1..], c[1..]);
    }
  }

  // ------------------------------------------------------------- S3 path

  /** `:/` at position `i` of `t`, with at least one character on each side. */
  predicate SepAt(t: string, i: int)
  {
    1 <= i && i + 2 < |t| && t[i] == ':' && t[i + 1] == '/'
  }

  function LastSepAtOrBelow(t: string, i: int): (r: Option<nat>)
    ensures r.Some? ==> r.value <= i && SepAt(t, r.value)
    ensures r.Some? ==> forall j :: r.value < j <= i ==> !SepAt(t, j)
    ensures r.None? ==> forall j :: j <= i ==> !SepAt(t, j)
    decreases i
  {
    if i < 1 then None
    else if SepAt(t, i) then Some(i)
    else LastSepAtOrBelow(t, i - 1)
  }

  /**
   * `re.search('^(.+):/(.+?)$', path).groups()`: `.` matches anything but a
   * newline and the greedy first group puts the split at the last `:/` that
   * still leaves a non-empty key.
   */
  function SplitS3Path(path: string): (r: Option<(string, string)>)
    ensures r.Some? <==> '\n' !in Chomp(path) && exists i :: SepAt(Chomp(path), i)
    ensures r.Some? ==> r.value.0 != [] && r.value.1 != []
    ensures r.Some? ==> r.value.0 + ":/" + r.value.1 == Chomp(path)
    ensures r.Some? ==> forall i :: SepAt(Chomp(path), i) ==> i <= |r.value.0|
  {
    var t := Chomp(path);
    if '\n' in t then None
    else
      match LastSepAtOrBelow(t, |t| - 1)
      case None => None
      case Some(i) =>
        var bucket, key := t[..i], t[i + 2..];
        assert bucket + ":/" + key == t;
        Some((bucket, key))
  }

  /**
   * A path built from a bucket and a key splits back into them when the key
   * holds no `:/` followed by more text (the bucket may hold one).
   */
  lemma S3PathRoundTrip(bucket: string, key: string)
    requires bucket != [] && key != []
    requires '\n' !in bucket && '\n' !in key
    requires forall i :: 0 <= i && i + 2 < |key| ==> !(key[i] == ':' && key[i + 1] == '/')
    ensures SplitS3Path(bucket + ":/" + key) == Some((bucket, key))
  {
    var path := bucket + ":/" + key;
    assert Chomp(path) == path;
    assert SepAt(path, |bucket|);
    assert '\n' !in path by {
      forall i | 0 <= i < |path| ensures path[i] != '\n' {
        if i < |bucket| { assert path[i] == bucket[i]; }
        else if i >= |bucket| + 2 { assert path[i] == key[i - |bucket| - 2]; }
      }
    }
    forall j | j > |bucket| ensures !SepAt(path, j) {
      if j >= |bucket| + 2 && j + 2 < |path| {
        assert path[j] == key[j - |bucket| - 2] && path[j + 1] == key[j - |bucket| - 1];
      }
    }
    var r := SplitS3Path(path);
    var b := r.value.0;
    assert path == b + ":/" + r.value.1;
    assert path[|b|] == ':' && path[|b| + 1] == '/';
    assert SepAt(path, |b|);
    assert |b| == |bucket|;
    assert r.value.0 == path[..|bucket|] == bucket;
    assert r.value.1 == path[|bucket| + 2..] == key;
  }
}
