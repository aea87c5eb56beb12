/** File names made safe for storage keys. A character stands for one byte of the name. */
module Filename {

  const UNSAFE := [' ', '/', '\\', ':', '*', '?', '"', '<', '>', '|']
  const MAX_LENGTH := 100
  const MAX_NAME := 90

  // ---- path functions of the Go library, for a slash-separated path ------------------------

  function StripSlashes(path: string): string {
    if path != "" && path[|path| - 1] == '/' then StripSlashes(path[..|path| - 1]) else path
  }

  /** What follows the last slash. */
  function LastSegment(path: string): (r: string)
    ensures '/' !in r && |r| <= |path|
    ensures '/' !in path ==> r == path
  {
    if path == "" then ""
    else if path[|path| - 1] == '/' then ""
    else LastSegment(path[..|path| - 1]) + [path[|path| - 1]]
  }

  function Base(path: string): string {
    if path == "" then "."
    else
      var last := LastSegment(StripSlashes(path));
      if last == "" then "/" else last
  }

  /** The extension: what starts at the last dot after the last slash, or nothing. */
  function Ext(path: string): (r: string)
    ensures |r| <= |path| && path[|path| - |r|..] == r
    ensures r != "" ==> r[0] == '.' && '.' !in r[1..] && '/' !in r
    ensures r == "" && '/' !in path ==> '.' !in path
  {
    if path == "" || path[|path| - 1] == '/' then ""
    else if path[|path| - 1] == '.' then "."
    else
      var before := Ext(path[..|path| - 1]);
      if before == "" then "" else before + [path[|path| - 1]]
  }

  // ---- sanitising -------------------------------------------------------------------------

  /** One replacement pass over the name. */
  function ReplaceAll(s: string, c: char): string {
    seq(|s|, i requires 0 <= i < |s| => if s[i] == c then '_' else s[i])
  }

  /** All the characters of a list replaced at once. */
  function ReplaceEvery(s: string, cs: seq<char>): string {
    seq(|s|, i requires 0 <= i < |s| => if s[i] in cs then '_' else s[i])
  }

  function Limit(s: string): string {
    if |s| <= MAX_LENGTH then s
    else
      var name := s[..|s| - |Ext(s)|];
      (if |name| > MAX_NAME then name[..MAX_NAME] else name) + Ext(s)
  }

  function Sanitized(filename: string): string {
    Limit(ReplaceEvery(Base(filename), UNSAFE))
  }

  /** The replacement passes one after another, then the length limit, amount to one simultaneous character map
      and the limit. */
  method SanitizeFilename(filename: string) returns (result: string)
    ensures result == Sanitized(filename)
  {
    var base := Base(filename);
    result := base;
    for i := 0 to |UNSAFE|
      invariant result == ReplaceEvery(base, UNSAFE[..i])
    {
      PassExtendsMap(base, UNSAFE, i);
      result := ReplaceAll(result, UNSAFE[i]);
    }
    assert UNSAFE[..|UNSAFE|] == UNSAFE;
    if |result| > MAX_LENGTH {
      var ext := Ext(result);
      var name := result[..|result| - |ext|];
      if |name| > MAX_NAME {
        name := name[..MAX_NAME];
      }
      result := name + ext;
    }
  }

  lemma PassExtendsMap(s: string, cs: seq<char>, i: nat)
    requires i < |cs| && '_' !in cs
    ensures ReplaceAll(ReplaceEvery(s, cs[..i]), cs[i]) == ReplaceEvery(s, cs[..i + 1])
  {
    assert cs[..i + 1] == cs[..i] + [cs[i]];
  }

  predicate Safe(s: string) {
    forall c :: c in s ==> c !in UNSAFE
  }

  lemma BaseOfSegment(s: string)
    requires s != "" && '/' !in s
    ensures Base(s) == s
  {
  }

  lemma BaseIsNotEmpty(path: string)
    ensures Base(path) != ""
  {
  }

  lemma ReplacedIsSafe(s: string)
    ensures Safe(ReplaceEvery(s, UNSAFE)) && |ReplaceEvery(s, UNSAFE)| == |s|
    ensures Safe(s) ==> ReplaceEvery(s, UNSAFE) == s
  {
    if Safe(s) {
      assert forall i :: 0 <= i < |s| ==> s[i] in s;
    }
  }

  lemma LimitKeepsSafe(s: string)
    requires Safe(s)
    ensures Safe(Limit(s)) && (s != "" ==> Limit(s) != "")
  {
    assert forall c :: c in Limit(s) ==> c in s;
  }

  lemma ExtSnoc(s: string, c: char)
    ensures c == '.' ==> Ext(s + [c]) == "."
    ensures c != '.' && c != '/' && Ext(s) != "" ==> Ext(s + [c]) == Ext(s) + [c]
  {
    assert (s + [c])[..|s|] == s;
  }

  /** A name made of anything and then an extension with no other dot has just that extension. */
  lemma {:induction false} ExtOfConcat(name: string, ext: string)
    requires ext != "" && ext[0] == '.' && '.' !in ext[1..] && '/' !in ext
    ensures Ext(name + ext) == ext
  {
    var n := |ext| - 1;
    var init, c := ext[..n], ext[n];
    assert name + ext == (name + init) + [c] && ext == init + [c];
    ExtSnoc(name + init, c);
    if n == 0 {
      assert init == "";
    } else {
      assert ext[1..][n - 1] == c;
      assert init[1..] == ext[1..][..n - 1];
      ExtOfConcat(name, init);
    }
  }

  lemma LimitTwice(s: string)
    requires '/' !in s
    ensures Limit(Limit(s)) == Limit(s)
  {
    var t := Limit(s);
    if |s| > MAX_LENGTH && |t| > MAX_LENGTH {
      var ext := Ext(s);
      var name := s[..|s| - |ext|];
      var kept := if |name| > MAX_NAME then name[..MAX_NAME] else name;
      assert t == kept + ext;
      ExtOfConcat(kept, ext);
      assert t[..|t| - |ext|] == kept;
    }
  }

  /** Sanitising yields a non-empty name with no unsafe character in it. */
  lemma SanitizedIsSafe(filename: string)
    ensures Safe(Sanitized(filename)) && Sanitized(filename) != "" && '/' !in Sanitized(filename)
  {
    BaseIsNotEmpty(filename);
    ReplacedIsSafe(Base(filename));
    LimitKeepsSafe(ReplaceEvery(Base(filename), UNSAFE));
    assert '/' in UNSAFE;
  }

  /** Sanitising twice is sanitising once, for every byte string. */
  lemma SanitizingTwice(filename: string)
    ensures Sanitized(Sanitized(filename)) == Sanitized(filename)
  {
    var r := Sanitized(filename);
    SanitizedIsSafe(filename);
    BaseOfSegment(r);
    ReplacedIsSafe(r);
    ReplacedIsSafe(Base(filename));
    assert '/' in UNSAFE;
    LimitTwice(ReplaceEvery(Base(filename), UNSAFE));
  }

  // ---- the length limit -------------------------------------------------------------------

  /** The name before the limit is applied. */
  function Mapped(filename: string): string {
    ReplaceEvery(Base(filename), UNSAFE)
  }

  /** The result never exceeds the mapped name, nor ninety plus the extension when the limit applies; it keeps to
      the limit exactly when the mapped name does or its extension is no longer than ten. */
  lemma LimitHoldsIff(filename: string)
    ensures var x, r := Mapped(filename), Sanitized(filename);
      && |r| <= |x|
      && (|x| > 100 ==> |r| <= 90 + |Ext(x)| && Ext(x) == r[|r| - |Ext(x)|..])
      && (|r| <= 100 <==> |x| <= 100 || |Ext(x)| <= 10)
  {
    var x, r := Mapped(filename), Sanitized(filename);
    if |x| > MAX_LENGTH {
      assert r[|r| - |Ext(x)|..] == Ext(x);
    }
  }

  /** A dot followed by a hundred ordinary characters is left at a hundred and one. */
  lemma LongExtensionExceedsLimit()
    ensures |Sanitized("." + seq(100, _ => 'x'))| == 101
  {
    var s := "." + seq(100, _ => 'x');
    BaseOfSegment(s);
    assert Safe(s);
    ReplacedIsSafe(s);
    ExtOfConcat("", s);
    assert "" + s == s;
    LimitHoldsIff(s);
  }

  // ---- storage keys -----------------------------------------------------------------------

  datatype UploadOptions = UploadOptions(
    organization: string, workspace: string, docType: string, entity: string, originalName: string)

  function Join(parts: seq<string>): string
    requires parts != []
  {
    if |parts| == 1 then parts[0] else Join(parts[..|parts| - 1]) + "/" + parts[|parts| - 1]
  }

  /** The slash-separated segments of a key. */
  function Split(key: string): (segments: seq<string>)
    ensures segments != []
  {
    if key == "" then [""]
    else
      var before := Split(key[..|key| - 1]);
      if key[|key| - 1] == '/' then before + [""]
      else before[..|before| - 1] + [before[|before| - 1] + [key[|key| - 1]]]
  }

  /** The parts of the key before the file name. */
  function Folders(o: UploadOptions): (parts: seq<string>)
    ensures parts != []
  {
    ["documents", o.organization] + (if o.workspace != "" then [o.workspace] else [])
    + [o.docType] + (if o.entity != "" then [o.entity] else [])
  }

  method BuildStorageKey(o: UploadOptions, timestamp: string) returns (key: string)
    ensures key == Join(Folders(o) + [timestamp + "-" + Sanitized(o.originalName)])
  {
    var parts := ["documents", o.organization];
    if o.workspace != "" {
      parts := parts + [o.workspace];
    }
    parts := parts + [o.docType];
    if o.entity != "" {
      parts := parts + [o.entity];
    }
    var filename := SanitizeFilename(o.originalName);
    assert parts == Folders(o);
    parts := parts + [timestamp + "-" + filename];
    key := Join(parts);
  }

  lemma {:induction false} SplitSnoc(a: string, b: string)
    requires '/' !in b
    ensures Split(a + "/" + b) == Split(a) + [b]
  {
    var s := a + "/" + b;
    if b == "" {
      assert s[..|s| - 1] == a;
    } else {
      var init := b[..|b| - 1];
      assert s[..|s| - 1] == a + "/" + init && s[|s| - 1] == b[|b| - 1] && b[|b| - 1] in b;
      SplitSnoc(a, init);
      assert init + [b[|b| - 1]] == b;
    }
  }

  /** Whatever name is uploaded, it adds exactly one segment to the key, its last: the timestamp, a dash and the
      sanitised name. */
  lemma NameAddsOneSegment(o: UploadOptions, timestamp: string)
    requires '/' !in timestamp
    ensures var name := timestamp + "-" + Sanitized(o.originalName);
      Split(Join(Folders(o) + [name])) == Split(Join(Folders(o))) + [name]
  {
    var name := timestamp + "-" + Sanitized(o.originalName);
    var all := Folders(o) + [name];
    SanitizedIsSafe(o.originalName);
    assert all[..|all| - 1] == Folders(o);
    SplitSnoc(Join(Folders(o)), name);
  }

  /** When no option contains a slash, splitting the key gives back its parts. */
  lemma {:induction false} SplitJoin(parts: seq<string>)
    requires parts != [] && forall p :: p in parts ==> '/' !in p
    ensures Split(Join(parts)) == parts
  {
    var last := parts[|parts| - 1];
    if |parts| == 1 {
      SplitPlain(last);
      assert parts == [last];
    } else {
      var init := parts[..|parts| - 1];
      assert forall p :: p in init ==> p in parts;
      SplitJoin(init);
      SplitSnoc(Join(init), last);
      assert init + [last] == parts;
    }
  }

  lemma {:induction false} SplitPlain(s: string)
    requires '/' !in s
    ensures Split(s) == [s]
  {
    if s != "" {
      SplitPlain(s[..|s| - 1]);
      assert s[..|s| - 1] + [s[|s| - 1]] == s && s[|s| - 1] in s;
    }
  }
}
