// File upload: the name a file is stored under (upload time, a dash, the
// client's name with each run of whitespace turned into one underscore),
// the allow-list test on the declared type or the name's extension, the
// 25 MiB size limit, and the reply pointing at the stored file.
module Upload {
  import opened Common
  import opened JsText

  const MaxFileSize := 25 * 1024 * 1024
  const NoFile := "No file uploaded"
  const TypeNotAllowed := "File type not allowed"
  const TooLarge := "File too large"
  const UrlPrefix := "/uploads/"

  // ---- POSIX path helpers, as Node's `path` module computes them ----

  function StripTrailingSlashes(s: string): (r: string)
    ensures |r| <= |s| && r == s[..|r|]
    ensures r != [] ==> r[|r| - 1] != '/'
    ensures forall i :: |r| <= i < |s| ==> s[i] == '/'
  {
    if s != [] && s[|s| - 1] == '/' then StripTrailingSlashes(s[..|s| - 1]) else s
  }

  /** The part after the last `/`. */
  function AfterLastSlash(s: string): (r: string)
    ensures |r| <= |s| && r == s[|s| - |r|..]
    ensures forall i :: 0 <= i < |r| ==> r[i] != '/'
    ensures |r| < |s| ==> s[|s| - |r| - 1] == '/'
  {
    if s == [] || s[|s| - 1] == '/' then []
    else AfterLastSlash(s[..|s| - 1]) + [s[|s| - 1]]
  }

  /** `path.basename`: the last component, trailing slashes ignored. */
  function Basename(path: string): string {
    AfterLastSlash(StripTrailingSlashes(path))
  }

  predicate NoSlash(s: string) {
    forall i :: 0 <= i < |s| ==> s[i] != '/'
  }

  /** The last component of `dir/name` is `name`, whatever `dir` is. */
  lemma {:induction false} BasenameOfJoin(dir: string, name: string)
    requires name != [] && NoSlash(name)
    ensures Basename(dir + "/" + name) == name
  {
    var s := dir + "/" + name;
    assert StripTrailingSlashes(s) == s;
    AfterLastSlashOfJoin(dir, name);
  }

  lemma {:induction false} AfterLastSlashOfJoin(dir: string, name: string)
    requires NoSlash(name)
    ensures AfterLastSlash(dir + "/" + name) == name
    decreases |name|
  {
    var s := dir + "/" + name;
    if name == [] {
    } else {
      var init := name[..|name| - 1];
      assert s[..|s| - 1] == dir + "/" + init;
      AfterLastSlashOfJoin(dir, init);
      assert name == init + [name[|name| - 1]];
    }
  }

  function LastDot(s: string): (r: Option<nat>)
    ensures r.Some? ==> r.value < |s| && s[r.value] == '.' && forall i :: r.value < i < |s| ==> s[i] != '.'
    ensures r.None? ==> forall i :: 0 <= i < |s| ==> s[i] != '.'
  {
    if s == [] then None
    else if s[|s| - 1] == '.' then Some(|s| - 1)
    else LastDot(s[..|s| - 1])
  }

  /** The extension of one path component: from its last dot to its end;
      empty when there is no dot, when the only dot starts the component
      (a dot-file), and for `..`. */
  function ComponentExt(comp: string): (r: string)
    ensures r != "" ==> r[0] == '.' && forall i :: 1 <= i < |r| ==> r[i] != '.'
    ensures r != "" ==> |r| <= |comp| && r == comp[|comp| - |r|..]
  {
    match LastDot(comp)
    case None => ""
    case Some(k) => if k == 0 || comp == ".." then "" else comp[k..]
  }

  /** `path.extname`: the extension of the last component. */
  function ExtName(path: string): (r: string)
    ensures r != "" ==> r[0] == '.' && forall i :: 1 <= i < |r| ==> r[i] != '.'
    ensures r != "" ==> |r| <= |Basename(path)| && r == Basename(path)[|Basename(path)| - |r|..]
  {
    ComponentExt(Basename(path))
  }

  /** For a name `stem.ext` with a non-empty stem and no dot in `ext`, the
      extension is `.ext`. */
  lemma ExtNameOfName(stem: string, ext: string)
    requires stem != [] && NoSlash(stem) && NoSlash(ext)
    requires forall i :: 0 <= i < |ext| ==> ext[i] != '.'
    requires stem + "." + ext != ".."
    ensures ExtName(stem + "." + ext) == "." + ext
  {
    var name := stem + "." + ext;
    assert NoSlash(name) by {
      forall i | 0 <= i < |name| ensures name[i] != '/' {
        if i > |stem| {
          assert name[i] == ext[i - |stem| - 1];
        }
      }
    }
    BasenameOfPlainName(name);
    assert forall i :: |stem| < i < |name| ==> name[i] == ext[i - |stem| - 1];
    LastDotIsLast(name, |stem|);
    assert name[|stem|..] == "." + ext;
  }

  /** A name without a slash is its own last component. */
  lemma BasenameOfPlainName(name: string)
    requires NoSlash(name)
    ensures Basename(name) == name
  {
    assert StripTrailingSlashes(name) == name;
    AfterLastSlashWhole(name);
  }

  lemma {:induction false} AfterLastSlashWhole(s: string)
    requires NoSlash(s)
    ensures AfterLastSlash(s) == s
  {
    if s != [] {
      AfterLastSlashWhole(s[..|s| - 1]);
    }
  }

  lemma {:induction false} LastDotIsLast(s: string, k: nat)
    requires k < |s| && s[k] == '.' && forall i :: k < i < |s| ==> s[i] != '.'
    ensures LastDot(s) == Some(k)
  {
    if k < |s| - 1 {
      LastDotIsLast(s[..|s| - 1], k);
    }
  }

  /** A dot-file has no extension. */
  lemma DotFileHasNoExtension(name: string)
    requires NoSlash(name) && forall i :: 0 <= i < |name| ==> name[i] != '.'
    ensures ExtName("." + name) == ""
  {
    var s := "." + name;
    assert NoSlash(s) by {
      forall i | 1 <= i < |s| ensures s[i] != '/' {
        assert s[i] == name[i - 1];
      }
    }
    BasenameOfPlainName(s);
    assert forall i :: 0 < i < |s| ==> s[i] == name[i - 1];
    LastDotIsLast(s, 0);
  }

  // ---- The allow-list test ----

  const AllowList: seq<string> := ["jpeg", "jpg", "png", "gif", "mp4", "mov", "pdf", "doc", "docx", "text", "plain"]

  /** `/jpeg|jpg|png|gif|mp4|mov|pdf|doc|docx|text|plain/.test(s)`: one of
      the alternatives occurs anywhere in `s`. */
  predicate AllowListTest(s: string) {
    exists k :: 0 <= k < |AllowList| && Contains(s, AllowList[k])
  }

  /** The test is unanchored: an alternative embedded in anything passes. */
  lemma AllowListTestUnanchored(a: string, k: nat, b: string)
    requires k < |AllowList|
    ensures AllowListTest(a + AllowList[k] + b)
  {
    ContainsPart(a, AllowList[k], b);
  }

  /** So every `text/...` type passes, `text/html` among them. */
  lemma AnyTextTypePasses(subtype: string)
    ensures AllowListTest("text/" + subtype)
  {
    assert "text/" + subtype == "" + AllowList[9] + ("/" + subtype);
    AllowListTestUnanchored("", 9, "/" + subtype);
  }

  /** The `docx` alternative adds nothing: whatever contains it contains `doc`. */
  lemma DocxIsRedundant(s: string)
    requires Contains(s, "docx")
    ensures Contains(s, "doc")
  {
    ContainsIffOccurs(s, "docx");
    var i :| OccursAt(s, "docx", i);
    assert s[i..i + 3] == s[i..i + 4][..3];
    assert OccursAt(s, "doc", i);
    ContainsIffOccurs(s, "doc");
  }

  /** A name with none of the alternatives in it fails: an executable. */
  lemma ExecutableRefused()
    ensures !AllowListTest(".exe")
  {
    forall k | 0 <= k < |AllowList| ensures !Contains(".exe", AllowList[k]) {
      var w := AllowList[k];
      forall i | 0 <= i && i + |w| <= 4 ensures !OccursAt(".exe", w, i) {
        assert ".exe"[i..i + |w|][0] == ".exe"[i];
      }
      ContainsIffOccurs(".exe", w);
    }
  }

  datatype IncomingFile = IncomingFile(originalName: string, mimetype: string, size: nat)

  /** The `fileFilter`: the declared type or the name's extension passes. */
  predicate FileAllowed(f: IncomingFile) {
    AllowListTest(f.mimetype) || AllowListTest(ExtName(f.originalName))
  }

  /** The stored file name: `Date.now() + '-' + name.replace(/\s+/g, '_')`. */
  function StoredName(now: nat, originalName: string): string {
    Decimal(now) + "-" + SquashSpaces(originalName)
  }

  /** The stored name splits back into the upload time (the digits before
      the first dash) and a whitespace-free rest that keeps every other
      character of the client's name, in order. */
  lemma StoredNameParts(now: nat, originalName: string)
    ensures var s := StoredName(now, originalName);
      var k := |Decimal(now)|;
      && k < |s| && s[k] == '-'
      && (forall i :: 0 <= i < k ==> IsDigit(s[i]))
      && ParseDecimal(s[..k]) == now
      && NoSpaces(s[k + 1..])
      && Solid(s[k + 1..]) == Solid(originalName)
  {
    var s := StoredName(now, originalName);
    var k := |Decimal(now)|;
    assert s[..k] == Decimal(now);
    assert s[k + 1..] == SquashSpaces(originalName);
    DecimalRoundTrip(now);
    SquashSpacesKeepsSolid(originalName);
  }

  datatype UploadResponse = UploadResponse(url: string, originalName: string, size: nat, fileType: string)

  /** POST /api/upload at time `now`, storing under `dir`. Without a file the
      reply is 400; a file the filter refuses, or one over the size limit,
      ends in the framework's error handler (500, with the error's message);
      otherwise the reply points at the stored file and echoes its name,
      size and type. */
  function HandleUpload(dir: string, now: nat, file: Option<IncomingFile>): (r: Reply<UploadResponse>)
    ensures file.None? ==> r == Fail(400, NoFile)
    ensures file.Some? && !FileAllowed(file.value) ==> r == Fail(500, TypeNotAllowed)
    ensures file.Some? && FileAllowed(file.value) && file.value.size > MaxFileSize ==> r == Fail(500, TooLarge)
    ensures r.Success? <==> file.Some? && FileAllowed(file.value) && file.value.size <= MaxFileSize
    ensures r.Success? ==>
      && IsPrefix(UrlPrefix, r.body.url)
      && r.body.originalName == file.value.originalName
      && r.body.size == file.value.size
      && r.body.fileType == file.value.mimetype
  {
    match file
    case None => Fail(400, NoFile)
    case Some(f) =>
      if !FileAllowed(f) then Fail(500, TypeNotAllowed)
      else if f.size > MaxFileSize then Fail(500, TooLarge)
      else
        var path := dir + "/" + StoredName(now, f.originalName);
        Success(UploadResponse(UrlPrefix + Basename(path), f.originalName, f.size, f.mimetype))
  }

  /** For a client name without a slash, the URL names the stored file. */
  lemma UploadUrlNamesStoredFile(dir: string, now: nat, f: IncomingFile)
    requires NoSlash(f.originalName) && FileAllowed(f) && f.size <= MaxFileSize
    ensures HandleUpload(dir, now, Some(f)).body.url == UrlPrefix + StoredName(now, f.originalName)
  {
    var name := StoredName(now, f.originalName);
    var sq := SquashSpaces(f.originalName);
    assert NoSlash(sq) by {
      SquashSpacesNoSlash(f.originalName);
    }
    assert NoSlash(name) by {
      forall i | 0 <= i < |name| ensures name[i] != '/' {
        if i > |Decimal(now)| {
          assert name[i] == sq[i - |Decimal(now)| - 1];
        }
      }
    }
    BasenameOfJoin(dir, name);
  }

  lemma {:induction false} SquashSpacesNoSlash(s: string)
    requires NoSlash(s)
    ensures NoSlash(SquashSpaces(s))
  {
    SquashSpacesKeepsChars(s);
    var r := SquashSpaces(s);
    forall i | 0 <= i < |r| ensures r[i] != '/' {
      assert r[i] in r;
    }
  }

  /** Every character of the squashed name is `_` or one of the name's. */
  lemma {:induction false} SquashSpacesKeepsChars(s: string)
    ensures forall c :: c in SquashSpaces(s) ==> c == '_' || c in s
    decreases |s|
  {
    if s != [] {
      if IsSpace(s[0]) {
        var rest := TrimStart(s);
        TrimStartShape(s);
        SquashSpacesKeepsChars(rest);
        assert forall c :: c in rest ==> c in s;
      } else {
        SquashSpacesKeepsChars(s[1..]);
        assert SquashSpaces(s) == [s[0]] + SquashSpaces(s[1..]);
      }
    }
  }
}
