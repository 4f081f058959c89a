/** The byte stream behind a package fingerprint
  * (backend/src/skills/skillPackageService.js, `calculatePackageFingerprint`,
  * `normalizeRuntimeContent`). The digest is a parameter; contents are texts. */
module Fingerprint {
  import opened Wrappers

  const HASH_LENGTH: nat := 64

  // ---------- line endings ----------

  predicate CrlfAhead(s: string) {
    |s| >= 2 && s[0] == '\r' && s[1] == '\n'
  }

  /** `text.replace(/\r\n/g, '\n')`. */
  function Normalize(text: string): string {
    if text == "" then ""
    else if CrlfAhead(text) then "\n" + Normalize(text[2..])
    else [text[0]] + Normalize(text[1..])
  }

  /** A checkout that writes every line feed as a carriage return and a line feed. */
  function ToCrlf(text: string): string {
    if text == "" then ""
    else (if text[0] == '\n' then "\r\n" else [text[0]]) + ToCrlf(text[1..])
  }

  predicate HasCrlf(text: string) {
    text != "" && (CrlfAhead(text) || HasCrlf(text[1..]))
  }

  lemma {:induction false} CheckoutNormalizesBack(text: string)
    ensures Normalize(ToCrlf(text)) == text
    decreases |text|
  {
    if text != "" {
      var rest := text[1..];
      var after := ToCrlf(rest);
      CheckoutNormalizesBack(rest);
      assert text == [text[0]] + rest;
      if text[0] == '\n' {
        assert ToCrlf(text)[2..] == after;
      } else {
        assert ToCrlf(text)[1..] == after;
        assert after != "" ==> after[0] != '\n';
      }
    }
  }

  lemma {:induction false} NormalizeShrinks(text: string)
    ensures |Normalize(text)| <= |text|
    ensures HasCrlf(text) ==> |Normalize(text)| < |text|
    decreases |text|
  {
    if text != "" {
      NormalizeShrinks(text[1..]);
      if CrlfAhead(text) {
        NormalizeShrinks(text[2..]);
      }
    }
  }

  lemma {:induction false} NormalizeKeeps(text: string)
    requires !HasCrlf(text)
    ensures Normalize(text) == text
    decreases |text|
  {
    if text != "" {
      NormalizeKeeps(text[1..]);
      assert text == [text[0]] + text[1..];
    }
  }

  /** Every carriage return before a line feed goes, wherever it stands; with `NormalizeKeeps` this says
    * what becomes of every text. */
  lemma {:induction false} NormalizeSplits(before: string, after: string)
    ensures Normalize(before + "\r\n" + after) == Normalize(before) + "\n" + Normalize(after)
    decreases |before|
  {
    var text := before + "\r\n" + after;
    if before == "" {
      assert text[2..] == after;
    } else if CrlfAhead(before) {
      assert text[2..] == before[2..] + "\r\n" + after;
      NormalizeSplits(before[2..], after);
    } else {
      assert text[1..] == before[1..] + "\r\n" + after;
      NormalizeSplits(before[1..], after);
      assert !CrlfAhead(text);
    }
  }

  /** A text and its checkout with carriage returns have the same normal form exactly when the text
    * has no carriage return before a line feed of its own. */
  lemma {:induction false} CheckoutsAgree(text: string)
    ensures Normalize(ToCrlf(text)) == Normalize(text) <==> !HasCrlf(text)
  {
    CheckoutNormalizesBack(text);
    if HasCrlf(text) {
      NormalizeShrinks(text);
    } else {
      NormalizeKeeps(text);
    }
  }

  // ---------- the stream ----------

  datatype Entry = Entry(path: string, hash: string)

  predicate ValidEntry(e: Entry) {
    '\0' !in e.path && |e.hash| == HASH_LENGTH
  }

  predicate ValidEntries(entries: seq<Entry>) {
    forall i | 0 <= i < |entries| :: ValidEntry(entries[i])
  }

  function EncodeEntry(e: Entry): string {
    e.path + "\0" + e.hash + "\n"
  }

  function Encode(entries: seq<Entry>): string {
    if entries == [] then "" else EncodeEntry(entries[0]) + Encode(entries[1..])
  }

  /** The number of characters before the first NUL. */
  function PathLength(text: string): (n: nat)
    ensures n <= |text|
  {
    if text == "" || text[0] == '\0' then 0 else 1 + PathLength(text[1..])
  }

  /** A reader of the stream: a path up to NUL, a hash of fixed length, a line feed. */
  function Decode(text: string): Option<seq<Entry>>
    decreases |text|
  {
    if text == "" then Some([])
    else
      var n := PathLength(text);
      if |text| < n + HASH_LENGTH + 2 || text[n + HASH_LENGTH + 1] != '\n' then None
      else
        var rest := Decode(text[n + HASH_LENGTH + 2..]);
        if rest.None? then None
        else Some([Entry(text[..n], text[n + 1..n + HASH_LENGTH + 1])] + rest.value)
  }

  lemma {:induction false} PathEndsAtNul(path: string, rest: string)
    requires '\0' !in path
    ensures PathLength(path + "\0" + rest) == |path|
    decreases |path|
  {
    if path == "" {
      assert path + "\0" + rest == "\0" + rest;
    } else {
      assert (path + "\0" + rest)[1..] == path[1..] + "\0" + rest;
      PathEndsAtNul(path[1..], rest);
    }
  }

  lemma {:induction false} EntryReadsBack(e: Entry, rest: string)
    requires ValidEntry(e)
    ensures var text, n := EncodeEntry(e) + rest, |e.path|;
            && text != "" && PathLength(text) == n && |text| >= n + HASH_LENGTH + 2
            && text[..n] == e.path && text[n + 1..n + HASH_LENGTH + 1] == e.hash
            && text[n + HASH_LENGTH + 1] == '\n' && text[n + HASH_LENGTH + 2..] == rest
  {
    var text := EncodeEntry(e) + rest;
    assert text == e.path + "\0" + (e.hash + "\n" + rest);
    PathEndsAtNul(e.path, e.hash + "\n" + rest);
  }

  /** The stream parses back to the records it was made of, so equal streams have equal records. */
  lemma {:induction false} StreamReadsBack(entries: seq<Entry>)
    requires ValidEntries(entries)
    ensures Decode(Encode(entries)) == Some(entries)
    decreases |entries|
  {
    if entries != [] {
      assert ValidEntries(entries[1..]);
      StreamReadsBack(entries[1..]);
      EntryReadsBack(entries[0], Encode(entries[1..]));
      assert entries == [entries[0]] + entries[1..];
    }
  }

  lemma {:induction false} StreamIsInjective(a: seq<Entry>, b: seq<Entry>)
    requires ValidEntries(a) && ValidEntries(b)
    ensures Encode(a) == Encode(b) <==> a == b
  {
    StreamReadsBack(a);
    StreamReadsBack(b);
  }

  // ---------- packages ----------

  /** The runtime files of a package: contents by path. */
  type Package = map<string, string>

  /** The order of `sort()`. */
  predicate Before(a: string, b: string) {
    b != "" && (a == "" || a[0] < b[0] || (a[0] == b[0] && Before(a[1..], b[1..])))
  }

  predicate Sorted(files: seq<string>) {
    forall i, j | 0 <= i < j < |files| :: Before(files[i], files[j])
  }

  /** The sorted list of the files of a package. */
  ghost predicate Lists(files: seq<string>, package: Package) {
    Sorted(files) && forall path :: path in files <==> path in package
  }

  function RuntimeContent(isText: string -> bool, path: string, content: string): string {
    if isText(path) then Normalize(content) else content
  }

  function EntryOf(digest: string -> string, isText: string -> bool, package: Package, path: string): Entry
    requires path in package
  {
    Entry(path, digest(RuntimeContent(isText, path, package[path])))
  }

  function EntriesOf(digest: string -> string, isText: string -> bool, package: Package,
                     files: seq<string>): (es: seq<Entry>)
    requires forall i | 0 <= i < |files| :: files[i] in package
    ensures |es| == |files|
    ensures forall i | 0 <= i < |files| :: es[i] == EntryOf(digest, isText, package, files[i])
  {
    seq(|files|, i requires 0 <= i < |files| => EntryOf(digest, isText, package, files[i]))
  }

  ghost predicate FixedLength(digest: string -> string) {
    forall s :: |digest(s)| == HASH_LENGTH
  }

  ghost function StreamOf(digest: string -> string, isText: string -> bool, package: Package,
                          files: seq<string>): string
    requires forall i | 0 <= i < |files| :: files[i] in package
  {
    Encode(EntriesOf(digest, isText, package, files))
  }

  /** The digest does not confuse the two streams, nor the contents of a file in the two packages. */
  ghost predicate NoCollision(digest: string -> string, isText: string -> bool,
                              package: Package, files: seq<string>, package': Package, files': seq<string>)
    requires forall i | 0 <= i < |files| :: files[i] in package
    requires forall i | 0 <= i < |files'| :: files'[i] in package'
  {
    && (digest(StreamOf(digest, isText, package, files)) == digest(StreamOf(digest, isText, package', files')) ==>
          StreamOf(digest, isText, package, files) == StreamOf(digest, isText, package', files'))
    && (forall path | path in package && path in package' ::
          var content, content' := RuntimeContent(isText, path, package[path]),
                                   RuntimeContent(isText, path, package'[path]);
          digest(content) == digest(content') ==> content == content')
  }

  lemma {:induction false} EncodeAppends(entries: seq<Entry>, e: Entry)
    ensures Encode(entries + [e]) == Encode(entries) + EncodeEntry(e)
    decreases |entries|
  {
    if entries == [] {
      assert entries + [e] == [e] && [e][1..] == [];
    } else {
      assert (entries + [e])[1..] == entries[1..] + [e];
      EncodeAppends(entries[1..], e);
    }
  }

  /** The hash of everything fed to it, one piece after the other. */
  method CalculatePackageFingerprint(digest: string -> string, isText: string -> bool, package: Package,
                                     files: seq<string>)
    returns (r: Result<string, string>)
    requires forall i | 0 <= i < |files| :: files[i] in package
    ensures r.Err? <==> files == []
    ensures r.Ok? ==> r.value == digest(StreamOf(digest, isText, package, files))
  {
    if files == [] {
      return Err("Approved skill package contains no runtime files.");
    }
    var fed := "";
    ghost var entries := EntriesOf(digest, isText, package, files);
    for i := 0 to |files|
      invariant fed == Encode(entries[..i])
    {
      var content := package[files[i]];
      if isText(files[i]) {
        content := Normalize(content);
      }
      var fileHash := digest(content);
      EncodeAppends(entries[..i], entries[i]);
      assert entries[..i + 1] == entries[..i] + [entries[i]];
      fed := fed + (files[i] + "\0" + fileHash + "\n");
    }
    assert entries[..|files|] == entries;
    return Ok(digest(fed));
  }

  // ---------- the fingerprint identifies the package ----------

  /** The two texts agree up to `k`, where the first one ends or has the smaller character. */
  predicate FirstDifference(a: string, b: string, k: nat) {
    && k <= |a| && k < |b| && a[..k] == b[..k] && (k == |a| || a[k] < b[k])
  }

  /** The order is the lexicographic one, and any two different paths are ordered by it. */
  lemma {:induction false} BeforeIsLexicographic(a: string, b: string)
    ensures Before(a, b) <==> exists k: nat :: FirstDifference(a, b, k)
    ensures Before(a, b) || Before(b, a) || a == b
    decreases |a|
  {
    if a == "" || b == "" || a[0] != b[0] {
      assert b != "" && (a == "" || a[0] < b[0]) ==> FirstDifference(a, b, 0);
    } else {
      assert a == [a[0]] + a[1..] && b == [b[0]] + b[1..];
      BeforeIsLexicographic(a[1..], b[1..]);
      if k: nat :| FirstDifference(a[1..], b[1..], k) {
        assert a[..k + 1] == [a[0]] + a[1..][..k] && b[..k + 1] == [b[0]] + b[1..][..k];
        assert FirstDifference(a, b, k + 1);
      }
      if k: nat :| FirstDifference(a, b, k) {
        assert k > 0 && a[1..][..k - 1] == a[..k][1..] && b[1..][..k - 1] == b[..k][1..];
        assert FirstDifference(a[1..], b[1..], k - 1);
      }
    }
  }

  lemma {:induction false} BeforeIsStrict(a: string, b: string)
    requires Before(a, b)
    ensures !Before(b, a) && a != b
    decreases |a|
  {
    if a != "" && a[0] == b[0] {
      BeforeIsStrict(a[1..], b[1..]);
    }
  }

  /** A set of files has only one sorted list. */
  lemma {:induction false} SortedListIsUnique(a: seq<string>, b: seq<string>)
    requires Sorted(a) && Sorted(b) && forall path :: path in a <==> path in b
    ensures a == b
    decreases |a|
  {
    EmptyTogether(a, b);
    EmptyTogether(b, a);
    if a != [] {
      FirstIsLeast(a, b);
      FirstIsLeast(b, a);
      assert a[0] == b[0];
      TailHasTheRest(a);
      TailHasTheRest(b);
      SortedListIsUnique(a[1..], b[1..]);
      assert a == [a[0]] + a[1..] && b == [b[0]] + b[1..];
    }
  }

  lemma {:induction false} EmptyTogether(a: seq<string>, b: seq<string>)
    requires forall path :: path in a <==> path in b
    ensures b != [] ==> a != []
  {
    if b != [] {
      assert b[0] in b;
    }
  }

  lemma {:induction false} FirstIsLeast(a: seq<string>, b: seq<string>)
    requires a != [] && b != [] && Sorted(a) && b[0] in a
    ensures a[0] == b[0] || Before(a[0], b[0])
    ensures a[0] == b[0] || !Before(b[0], a[0])
  {
    if a[0] != b[0] {
      var i :| 0 < i < |a| && a[i] == b[0];
      BeforeIsStrict(a[0], a[i]);
    }
  }

  lemma {:induction false} TailHasTheRest(a: seq<string>)
    requires a != [] && Sorted(a)
    ensures Sorted(a[1..]) && forall path :: path in a[1..] <==> path in a && path != a[0]
  {
    forall i | 0 < i < |a|
      ensures a[i] != a[0]
    {
      BeforeIsStrict(a[0], a[i]);
    }
    assert a == [a[0]] + a[1..];
  }

  /** Both packages have the same files; texts may differ in the line endings only, other files in
    * nothing. */
  ghost predicate SameRuntime(isText: string -> bool, package: Package, package': Package) {
    && package.Keys == package'.Keys
    && forall path | path in package && path in package' ::
         if isText(path) then Normalize(package[path]) == Normalize(package'[path]) else package[path] == package'[path]
  }

  /** Without a collision, two packages have the same fingerprint exactly when they have the same files
    * with the same contents, texts up to their line endings. */
  lemma {:induction false} FingerprintIdentifiesPackage(digest: string -> string, isText: string -> bool,
                                     package: Package, files: seq<string>, package': Package, files': seq<string>)
    requires FixedLength(digest) && Lists(files, package) && Lists(files', package')
    requires NoCollision(digest, isText, package, files, package', files')
    requires forall path | path in package || path in package' :: '\0' !in path
    ensures digest(StreamOf(digest, isText, package, files)) == digest(StreamOf(digest, isText, package', files'))
            <==> SameRuntime(isText, package, package')
  {
    var es, es' := EntriesOf(digest, isText, package, files), EntriesOf(digest, isText, package', files');
    StreamIsInjective(es, es');
    if es == es' {
      SameEntriesSamePackage(digest, isText, package, files, package', files');
    }
    if package.Keys == package'.Keys {
      SortedListIsUnique(files, files');
      forall i | 0 <= i < |files|
        ensures files[i] in package && files'[i] in package' && files[i] in package'
      {
      }
      assert (forall i | 0 <= i < |files| ::
                RuntimeContent(isText, files[i], package[files[i]])
                == RuntimeContent(isText, files[i], package'[files[i]]))
             ==> es == es';
    }
  }

  lemma {:induction false} SameEntriesSamePackage(digest: string -> string, isText: string -> bool,
                               package: Package, files: seq<string>, package': Package, files': seq<string>)
    requires Lists(files, package) && Lists(files', package')
    requires NoCollision(digest, isText, package, files, package', files')
    requires EntriesOf(digest, isText, package, files) == EntriesOf(digest, isText, package', files')
    ensures package.Keys == package'.Keys
    ensures forall path | path in package && path in package' ::
              RuntimeContent(isText, path, package[path]) == RuntimeContent(isText, path, package'[path])
  {
    var es := EntriesOf(digest, isText, package, files);
    assert |files| == |files'|;
    forall i | 0 <= i < |files|
      ensures files[i] == files'[i]
    {
      assert es[i].path == files[i] && es[i].path == files'[i];
    }
    assert files == files';
    forall path | path in package && path in package'
      ensures RuntimeContent(isText, path, package[path]) == RuntimeContent(isText, path, package'[path])
    {
      var i :| 0 <= i < |files| && files[i] == path;
      assert es[i] == EntryOf(digest, isText, package, path) && es[i] == EntryOf(digest, isText, package', path);
    }
  }

  /** Checking a package out with carriage returns keeps its fingerprint exactly when no text file has
    * carriage returns before line feeds of its own. */
  lemma {:induction false} CheckoutKeepsFingerprint(digest: string -> string, isText: string -> bool,
                                 package: Package, package': Package, files: seq<string>)
    requires FixedLength(digest) && Lists(files, package) && Lists(files, package')
    requires NoCollision(digest, isText, package, files, package', files)
    requires forall path | path in package :: '\0' !in path
    requires forall path | path in package && path in package' ::
               package'[path] == if isText(path) then ToCrlf(package[path]) else package[path]
    ensures digest(StreamOf(digest, isText, package, files)) == digest(StreamOf(digest, isText, package', files))
            <==> forall path | path in package && isText(path) :: !HasCrlf(package[path])
  {
    assert package.Keys == package'.Keys;
    FingerprintIdentifiesPackage(digest, isText, package, files, package', files);
    forall path | path in package && isText(path)
      ensures Normalize(ToCrlf(package[path])) == Normalize(package[path]) <==> !HasCrlf(package[path])
    {
      CheckoutsAgree(package[path]);
    }
  }
}
