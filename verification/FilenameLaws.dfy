/** What the file name functions give, written out in characters. */
module FilenameLaws {
  import opened Filename

  // ---- the base name ----------------------------------------------------------------------

  function Slashes(n: nat): (s: string)
    ensures |s| == n
  {
    seq(n, _ => '/')
  }

  lemma {:induction false} StripLaw(s: string, n: nat)
    requires s == "" || s[|s| - 1] != '/'
    ensures StripSlashes(s + Slashes(n)) == s
  {
    if n == 0 {
      assert s + Slashes(n) == s;
    } else {
      var all := s + Slashes(n);
      assert all[..|all| - 1] == s + Slashes(n - 1);
      StripLaw(s, n - 1);
    }
  }

  lemma {:induction false} SegmentLaw(dir: string, s: string)
    requires '/' !in s
    ensures LastSegment(dir + "/" + s) == s
  {
    var all := dir + "/" + s;
    if s != "" {
      var init, c := s[..|s| - 1], s[|s| - 1];
      assert all[..|all| - 1] == dir + "/" + init && all[|all| - 1] == c && c in s;
      SegmentLaw(dir, init);
      assert init + [c] == s;
    }
  }

  /** The base name is what stands between the last slash that something follows and the slashes at the end; it is a
      dot for the empty path and a slash for nothing but slashes. */
  lemma BaseLaw(dir: string, s: string, n: nat)
    requires s != "" && '/' !in s
    ensures Base(dir + "/" + s + Slashes(n)) == s && Base(s + Slashes(n)) == s
    ensures Base("") == "." && Base("/" + Slashes(n)) == "/"
  {
    assert s[|s| - 1] in s;
    StripLaw(dir + "/" + s, n);
    SegmentLaw(dir, s);
    StripLaw(s, n);
    StripLaw("", n + 1);
    assert "" + Slashes(n + 1) == "/" + Slashes(n);
  }

  // ---- sanitising -------------------------------------------------------------------------

  /** Of the base name's characters exactly the ten unsafe ones become an underscore. */
  lemma MapLaw(filename: string, i: nat)
    requires i < |Base(filename)|
    ensures var c := Base(filename)[i];
      && |Mapped(filename)| == |Base(filename)|
      && Mapped(filename)[i] ==
           if c == ' ' || c == '/' || c == '\\' || c == ':' || c == '*' || c == '?' || c == '"' || c == '<' || c == '>'
             || c == '|' then '_' else c
  {
  }

  lemma ExtHasDot(x: string)
    ensures Ext(x) != "" ==> '.' in x
  {
    var ext := Ext(x);
    if ext != "" {
      assert x[|x| - |ext|..][0] == '.';
    }
  }

  /** A mapped name that is an extension after a name is kept up to a hundred characters, and beyond that keeps its
      extension and ninety characters before it. */
  lemma LimitLaw(filename: string, name: string, ext: string)
    requires Mapped(filename) == name + ext
    requires if ext == "" then '.' !in name else ext[0] == '.' && '.' !in ext[1..]
    ensures Sanitized(filename) ==
      if |name| + |ext| <= 100 then name + ext else (if |name| <= 90 then name else name[..90]) + ext
  {
    var x := Mapped(filename);
    ReplacedIsSafe(Base(filename));
    assert '/' in UNSAFE;
    assert '/' !in x && forall c :: c in ext ==> c in x;
    if ext != "" {
      ExtOfConcat(name, ext);
    } else {
      assert x == name;
      ExtHasDot(x);
    }
    assert x[..|x| - |ext|] == name;
  }

  // ---- storage keys -----------------------------------------------------------------------

  lemma JoinSnoc(parts: seq<string>, last: string)
    requires parts != []
    ensures Join(parts + [last]) == Join(parts) + "/" + last
  {
    assert (parts + [last])[..|parts|] == parts;
  }

  lemma JoinOptional(parts: seq<string>, part: string)
    requires parts != []
    ensures var more := parts + (if part != "" then [part] else []);
      more != [] && Join(more) == Join(parts) + (if part != "" then "/" + part else "")
  {
    JoinSnoc(parts, part);
    assert parts + [] == parts && Join(parts) + "" == Join(parts);
    assert Join(parts) + "/" + part == Join(parts) + ("/" + part);
  }

  lemma FoldersLaw(o: UploadOptions)
    ensures Join(Folders(o)) == "documents/" + o.organization
      + (if o.workspace != "" then "/" + o.workspace else "") + "/" + o.docType
      + (if o.entity != "" then "/" + o.entity else "")
  {
    JoinSnoc(["documents"], o.organization);
    var a := ["documents"] + [o.organization];
    JoinOptional(a, o.workspace);
    var b := a + (if o.workspace != "" then [o.workspace] else []);
    JoinSnoc(b, o.docType);
    JoinOptional(b + [o.docType], o.entity);
    assert a == ["documents", o.organization];
  }

  /** A storage key in full. */
  lemma KeyLaw(o: UploadOptions, timestamp: string)
    ensures Join(Folders(o) + [timestamp + "-" + Sanitized(o.originalName)]) ==
      "documents/" + o.organization + (if o.workspace != "" then "/" + o.workspace else "") + "/" + o.docType
      + (if o.entity != "" then "/" + o.entity else "") + "/" + timestamp + "-" + Sanitized(o.originalName)
  {
    FoldersLaw(o);
    JoinSnoc(Folders(o), timestamp + "-" + Sanitized(o.originalName));
  }
}
