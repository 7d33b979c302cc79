/** The OCR fallback: which page images are read, in what order, and how their texts are joined. */
module OcrPages {
  import opened Common

  /** A recognised page, or the message of the error reading it threw. */
  type Recognizer = string -> Result<string, string>

  datatype OcrError = NoPageImages | PageFailed(message: string)

  datatype Extracted = Extracted(text: string, pageCount: nat)

  predicate EndsWith(s: string, suffix: string) {
    |s| >= |suffix| && s[|s| - |suffix|..] == suffix
  }

  predicate IsPageFile(name: string) {
    "page" <= name && EndsWith(name, ".png")
  }

  function PageFiles(names: seq<string>): seq<string> {
    if names == [] then [] else (if IsPageFile(names[0]) then [names[0]] else []) + PageFiles(names[1..])
  }

  /** The default order of JavaScript's `sort`: by code unit. */
  predicate LexLeq(a: string, b: string) {
    a == [] || (b != [] && (a[0] < b[0] || (a[0] == b[0] && LexLeq(a[1..], b[1..]))))
  }

  ghost predicate Sorted(s: seq<string>) {
    forall i, j | 0 <= i < j < |s| :: LexLeq(s[i], s[j])
  }

  function Insert(s: seq<string>, x: string): seq<string> {
    if s == [] || LexLeq(x, s[0]) then [x] + s else [s[0]] + Insert(s[1..], x)
  }

  function Sort(s: seq<string>): seq<string> {
    if s == [] then [] else Insert(Sort(s[1..]), s[0])
  }

  function Join(texts: seq<string>): string {
    if texts == [] then [] else if |texts| == 1 then texts[0] else texts[0] + "\n\n" + Join(texts[1..])
  }

  /** The texts of the pages, unless one could not be read. */
  function Recognized(recognize: Recognizer, files: seq<string>): Result<seq<string>, string> {
    if files == [] then Ok([])
    else
      match recognize(files[0])
      case Err(e) => Err(e)
      case Ok(text) =>
        match Recognized(recognize, files[1..])
        case Err(e) => Err(e)
        case Ok(texts) => Ok([text] + texts)
  }

  function ReadPages(files: seq<string>, recognize: Recognizer): Result<Extracted, OcrError> {
    if files == [] then Err(NoPageImages)
    else
      match Recognized(recognize, files)
      case Err(e) => Err(PageFailed(e))
      case Ok(texts) => Ok(Extracted(Join(texts), |files|))
  }

  lemma {:induction false} RecognizedAppended(recognize: Recognizer, files: seq<string>, file: string)
    requires Recognized(recognize, files).Ok?
    ensures Recognized(recognize, files + [file]) ==
            if recognize(file).Err? then Err(recognize(file).error)
                else Ok(Recognized(recognize, files).value + [recognize(file).value])
  {
    if files == [] {
      assert [file][1..] == [] && files + [file] == [file];
      assert Recognized(recognize, [file][1..]) == Ok([]);
      if recognize(file).Ok? {
        var text := recognize(file).value;
        assert [text] + [] == [] + [text];
        assert Recognized(recognize, [file]) == Ok([text] + []);
      }
    } else {
      var both := files + [file];
      assert both[0] == files[0] && both[1..] == files[1..] + [file];
      RecognizedAppended(recognize, files[1..], file);
      if recognize(file).Ok? {
        var head, tail, last := recognize(files[0]).value, Recognized(recognize, files[1..]).value,
            recognize(file).value;
        assert [head] + (tail + [last]) == ([head] + tail) + [last];
      }
    }
  }

  lemma {:induction false} FailurePersists(recognize: Recognizer, files: seq<string>, more: seq<string>)
    requires Recognized(recognize, files).Err?
    ensures Recognized(recognize, files + more) == Recognized(recognize, files)
  {
    assert (files + more)[1..] == files[1..] + more;
    if recognize(files[0]).Ok? {
      FailurePersists(recognize, files[1..], more);
    }
  }

  /** `listing` is what the directory holds, in the order it happens to be listed. */
  method OcrScannedPdf(listing: seq<string>, recognize: Recognizer) returns (r: Result<Extracted, OcrError>)
    ensures r == ReadPages(Sort(PageFiles(listing)), recognize)
  {
    var pageFiles := Sort(PageFiles(listing));
    if |pageFiles| == 0 {
      return Err(NoPageImages);
    }
    var pageTexts: seq<string> := [];
    for i := 0 to |pageFiles|
      invariant Recognized(recognize, pageFiles[..i]) == Ok(pageTexts)
    {
      var data := recognize(pageFiles[i]);
      RecognizedAppended(recognize, pageFiles[..i], pageFiles[i]);
      assert pageFiles[..i + 1] == pageFiles[..i] + [pageFiles[i]];
      assert pageFiles == pageFiles[..i + 1] + pageFiles[i + 1..];
      if data.Err? {
        FailurePersists(recognize, pageFiles[..i + 1], pageFiles[i + 1..]);
        return Err(PageFailed(data.error));
      }
      pageTexts := pageTexts + [data.value];
    }
    assert pageFiles[..|pageFiles|] == pageFiles;
    return Ok(Extracted(Join(pageTexts), |pageFiles|));
  }

  // ------------------------------------------------------- what pdftoppm leaves

  function Digit(d: nat): char
    requires d < 10
  {
    "0123456789"[d]
  }

  /** The last `width` decimal digits of `n`, zero-padded. */
  function Padded(n: nat, width: nat): string {
    if width == 0 then "" else Padded(n / 10, width - 1) + [Digit(n % 10)]
  }

  function PageName(n: nat, width: nat): string {
    "page-" + Padded(n, width) + ".png"
  }

  /** The names of pages 1 to n, in page order. */
  function PageNames(n: nat, width: nat): seq<string> {
    if n == 0 then [] else PageNames(n - 1, width) + [PageName(n, width)]
  }

  function Pow10(k: nat): nat {
    if k == 0 then 1 else 10 * Pow10(k - 1)
  }

  /** As many digits as the last page's number has, which is how pdftoppm pads. */
  function Width(n: nat): nat {
    if n < 10 then 1 else 1 + Width(n / 10)
  }

  lemma {:induction false} WidthFits(n: nat)
    ensures n < Pow10(Width(n)) && (n >= 10 ==> Pow10(Width(n) - 1) <= n)
  {
    if n >= 10 {
      WidthFits(n / 10);
    }
  }

  lemma NamesLookLike()
    ensures PageName(7, 2) == "page-07.png" && PageName(12, 2) == "page-12.png"
  {
    assert Padded(0, 1) == "0" && Padded(1, 1) == "1";
  }

  // -------------------------------------------------- lexical order is page order

  lemma {:induction false} PaddedLength(n: nat, width: nat)
    ensures |Padded(n, width)| == width
  {
    if width > 0 {
      PaddedLength(n / 10, width - 1);
    }
  }

  lemma {:induction false} LexPrefixed(p: string, a: string, b: string)
    ensures LexLeq(p + a, p + b) == LexLeq(a, b)
  {
    if p == [] {
      assert p + a == a && p + b == b;
    } else {
      assert (p + a)[1..] == p[1..] + a && (p + b)[1..] == p[1..] + b;
      LexPrefixed(p[1..], a, b);
    }
  }

  /** Between different strings of one length, what follows them does not matter. */
  lemma {:induction false} LexSuffixed(a: string, b: string, x: string, y: string)
    requires |a| == |b| && a != b
    ensures LexLeq(a + x, b + y) == LexLeq(a, b)
  {
    assert (a + x)[1..] == a[1..] + x && (b + y)[1..] == b[1..] + y;
    if a[0] == b[0] {
      assert a == [a[0]] + a[1..] && b == [b[0]] + b[1..];
      LexSuffixed(a[1..], b[1..], x, y);
    }
  }

  lemma {:induction false} PaddedOrder(m: nat, n: nat, width: nat)
    requires m < n < Pow10(width)
    ensures Padded(m, width) != Padded(n, width) && LexLeq(Padded(m, width), Padded(n, width))
  {
    var a, b := Padded(m / 10, width - 1), Padded(n / 10, width - 1);
    var x, y := Digit(m % 10), Digit(n % 10);
    PaddedLength(m / 10, width - 1);
    PaddedLength(n / 10, width - 1);
    if m / 10 == n / 10 {
      LexPrefixed(a, [x], [y]);
      assert (a + [x])[|a|] == x && (b + [y])[|a|] == y;
    } else {
      PaddedOrder(m / 10, n / 10, width - 1);
      LexSuffixed(a, b, [x], [y]);
      assert (a + [x])[..|a|] == a && (b + [y])[..|a|] == b;
    }
  }

  /** With every number as wide as the last, lexical order of the names is page order. */
  lemma NameOrder(m: nat, n: nat, width: nat)
    requires m < n < Pow10(width)
    ensures PageName(m, width) != PageName(n, width) && LexLeq(PageName(m, width), PageName(n, width))
  {
    PaddedOrder(m, n, width);
    PaddedLength(m, width);
    PaddedLength(n, width);
    var a, b := Padded(m, width), Padded(n, width);
    LexSuffixed(a, b, ".png", ".png");
    LexPrefixed("page-", a + ".png", b + ".png");
    assert PageName(m, width) == "page-" + (a + ".png") && PageName(n, width) == "page-" + (b + ".png");
    assert PageName(m, width)[5..5 + width] == a && PageName(n, width)[5..5 + width] == b;
  }

  lemma {:induction false} PageNamesAre(n: nat, width: nat)
    ensures |PageNames(n, width)| == n
    ensures forall i | 0 <= i < n :: PageNames(n, width)[i] == PageName(i + 1, width)
  {
    if n > 0 {
      PageNamesAre(n - 1, width);
    }
  }

  // ------------------------------------------- sorting a rearranged directory

  lemma {:induction false} LexTransitive(a: string, b: string, c: string)
    requires LexLeq(a, b) && LexLeq(b, c)
    ensures LexLeq(a, c)
  {
    if a != [] && a[0] == b[0] == c[0] {
      LexTransitive(a[1..], b[1..], c[1..]);
    }
  }

  lemma {:induction false} LexTotal(a: string, b: string)
    ensures LexLeq(a, b) || LexLeq(b, a)
  {
    if a != [] && b != [] && a[0] == b[0] {
      LexTotal(a[1..], b[1..]);
    }
  }

  lemma {:induction false} LexAntisymmetric(a: string, b: string)
    requires LexLeq(a, b) && LexLeq(b, a)
    ensures a == b
  {
    if a != [] {
      assert a == [a[0]] + a[1..] && b == [b[0]] + b[1..];
      LexAntisymmetric(a[1..], b[1..]);
    }
  }

  lemma {:induction false} InsertSorted(s: seq<string>, x: string)
    requires Sorted(s)
    ensures Sorted(Insert(s, x)) && multiset(Insert(s, x)) == multiset(s) + multiset{x}
  {
    if s == [] {
    } else if LexLeq(x, s[0]) {
      forall j | 0 <= j < |s| ensures LexLeq(x, s[j]) {
        if j > 0 {
          LexTransitive(x, s[0], s[j]);
        }
      }
    } else {
      assert s == [s[0]] + s[1..];
      InsertSorted(s[1..], x);
      LexTotal(x, s[0]);
      var rest := Insert(s[1..], x);
      forall j | 0 <= j < |rest| ensures LexLeq(s[0], rest[j]) {
        assert rest[j] in multiset(rest);
        assert rest[j] == x || rest[j] in s[1..];
      }
    }
  }

  lemma {:induction false} SortSorts(s: seq<string>)
    ensures Sorted(Sort(s)) && multiset(Sort(s)) == multiset(s)
  {
    if s != [] {
      SortSorts(s[1..]);
      InsertSorted(Sort(s[1..]), s[0]);
      assert s == [s[0]] + s[1..];
    }
  }

  lemma HeadLeast(s: seq<string>, x: string)
    requires s != [] && Sorted(s) && x in multiset(s)
    ensures LexLeq(s[0], x) && Sorted(s[1..]) && multiset(s[1..]) == multiset(s) - multiset{s[0]}
  {
    LexTotal(x, x);
    assert s == [s[0]] + s[1..];
  }

  lemma {:induction false} SortedUnique(a: seq<string>, b: seq<string>)
    requires Sorted(a) && Sorted(b) && multiset(a) == multiset(b)
    ensures a == b
  {
    if a == [] {
      assert |multiset(b)| == 0;
    } else {
      assert a[0] in multiset(a);
      assert b != [];
      assert b[0] in multiset(b);
      HeadLeast(a, b[0]);
      HeadLeast(b, a[0]);
      LexAntisymmetric(a[0], b[0]);
      SortedUnique(a[1..], b[1..]);
    }
  }

  lemma {:induction false} PageFilesCount(names: seq<string>, name: string)
    ensures multiset(PageFiles(names))[name] == if IsPageFile(name) then multiset(names)[name] else 0
  {
    if names != [] {
      assert names == [names[0]] + names[1..];
      PageFilesCount(names[1..], name);
    }
  }

  lemma {:induction false} PagesArePageFiles(n: nat, width: nat, name: string)
    ensures name in multiset(PageNames(n, width)) ==> IsPageFile(name)
  {
    if n > 0 {
      PagesArePageFiles(n - 1, width, name);
      assert PageName(n, width)[..4] == "page";
    }
  }

  lemma PagesSorted(n: nat, width: nat)
    requires n < Pow10(width)
    ensures Sorted(PageNames(n, width))
  {
    var pages := PageNames(n, width);
    PageNamesAre(n, width);
    forall i, j | 0 <= i < j < |pages| ensures LexLeq(pages[i], pages[j]) {
      NameOrder(i + 1, j + 1, width);
    }
  }

  /** Files around the pages that are not page files do not matter, and neither does the order of the listing. */
  lemma ListingSorted(listing: seq<string>, others: seq<string>, n: nat, width: nat)
    requires n < Pow10(width)
    requires forall name | name in others :: !IsPageFile(name)
    requires multiset(listing) == multiset(PageNames(n, width)) + multiset(others)
    ensures Sort(PageFiles(listing)) == PageNames(n, width)
  {
    PagesSorted(n, width);
    var pages, files := PageNames(n, width), PageFiles(listing);
    forall name ensures multiset(files)[name] == multiset(pages)[name] {
      PageFilesCount(listing, name);
      PagesArePageFiles(n, width, name);
      assert name in others <==> name in multiset(others);
    }
    assert multiset(files) == multiset(pages);
    SortSorts(files);
    SortedUnique(Sort(files), pages);
  }

  /** Page k's text is the k-th piece. */
  lemma {:induction false} RecognizedAre(recognize: Recognizer, files: seq<string>)
    ensures Recognized(recognize, files).Ok? <==> forall i | 0 <= i < |files| :: recognize(files[i]).Ok?
    ensures Recognized(recognize, files).Ok? ==>
              var texts := Recognized(recognize, files).value;
              |texts| == |files| && forall i | 0 <= i < |files| :: recognize(files[i]) == Ok(texts[i])
  {
    if files != [] {
      RecognizedAre(recognize, files[1..]);
      assert forall i | 0 < i < |files| :: files[i] == files[1..][i - 1];
      assert forall i | 0 <= i < |files| - 1 :: files[1..][i] == files[i + 1];
    }
  }

  /** The pages in order, read one by one. */
  lemma PagesRead(n: nat, width: nat, recognize: Recognizer)
    ensures var files := PageNames(n, width);
            && (Recognized(recognize, files).Ok? <==> forall k | 1 <= k <= n :: recognize(PageName(k, width)).Ok?)
            && (Recognized(recognize, files).Ok? ==>
                  var texts := Recognized(recognize, files).value;
                  |texts| == n && forall k | 1 <= k <= n :: recognize(PageName(k, width)) == Ok(texts[k - 1]))
  {
    var files := PageNames(n, width);
    PageNamesAre(n, width);
    RecognizedAre(recognize, files);
    assert forall k | 1 <= k <= n :: files[k - 1] == PageName(k, width);
    if Recognized(recognize, files).Err? {
      var i :| 0 <= i < |files| && recognize(files[i]).Err?;
      assert recognize(PageName(i + 1, width)).Err?;
    }
  }

  lemma {:induction false} FirstFailure(recognize: Recognizer, files: seq<string>)
    requires Recognized(recognize, files).Err?
    ensures exists i | 0 <= i < |files| ::
              && recognize(files[i]) == Err(Recognized(recognize, files).error)
              && forall j | 0 <= j < i :: recognize(files[j]).Ok?
  {
    if recognize(files[0]).Ok? {
      var rest := files[1..];
      FirstFailure(recognize, rest);
      var i :| 0 <= i < |rest| && recognize(rest[i]) == Err(Recognized(recognize, rest).error)
               && forall j | 0 <= j < i :: recognize(rest[j]).Ok?;
      assert files[i + 1] == rest[i];
      forall j | 0 <= j < i + 1 ensures recognize(files[j]).Ok? {
        assert j > 0 ==> files[j] == rest[j - 1];
      }
    }
  }

  // ------------------------------------------------------------- the joined text

  function TotalLength(texts: seq<string>): nat {
    if texts == [] then 0 else |texts[0]| + TotalLength(texts[1..])
  }

  /** Where piece `k` starts: after the pieces before it and two characters for each. */
  function Offset(texts: seq<string>, k: nat): nat
    requires k <= |texts|
  {
    TotalLength(texts[..k]) + 2 * k
  }

  lemma OffsetNext(texts: seq<string>, k: nat)
    requires 0 < k <= |texts|
    ensures Offset(texts, k) == |texts[0]| + 2 + Offset(texts[1..], k - 1)
  {
    assert texts[..k][1..] == texts[1..][..k - 1];
  }

  /** Piece `k` stands whole at its offset, and a blank line between it and the next. */
  ghost predicate Stands(text: string, texts: seq<string>, k: nat)
    requires k < |texts|
  {
    && Offset(texts, k) + |texts[k]| <= |text|
    && text[Offset(texts, k)..Offset(texts, k) + |texts[k]|] == texts[k]
    && (k + 1 < |texts| ==>
          && Offset(texts, k) + |texts[k]| + 2 <= |text|
          && text[Offset(texts, k) + |texts[k]|..Offset(texts, k) + |texts[k]| + 2] == "\n\n")
  }

  lemma StandsLater(text: string, prefix: string, texts: seq<string>, k: nat)
    requires 0 < k < |texts| && |prefix| == |texts[0]| + 2 && Stands(text, texts[1..], k - 1)
    ensures Stands(prefix + text, texts, k)
  {
    OffsetNext(texts, k);
    var a, b := Offset(texts[1..], k - 1), |texts[k]|;
    var whole := prefix + text;
    assert texts[1..][k - 1] == texts[k];
    assert whole[|prefix| + a..|prefix| + a + b] == text[a..a + b];
    if k + 1 < |texts| {
      assert whole[|prefix| + a + b..|prefix| + a + b + 2] == text[a + b..a + b + 2];
    }
  }

  lemma {:induction false} JoinPlaces(texts: seq<string>)
    requires texts != []
    ensures |Join(texts)| == TotalLength(texts) + 2 * (|texts| - 1)
    ensures forall k | 0 <= k < |texts| :: Stands(Join(texts), texts, k)
  {
    var head, rest := texts[0], texts[1..];
    assert Offset(texts, 0) == 0;
    if rest == [] {
      assert TotalLength(rest) == 0;
      assert Stands(Join(texts), texts, 0);
    } else {
      JoinPlaces(rest);
      var prefix := head + "\n\n";
      var text := prefix + Join(rest);
      assert text == Join(texts);
      assert text[0..|head|] == head && text[|head|..|head| + 2] == "\n\n";
      forall k | 0 <= k < |texts| ensures Stands(text, texts, k) {
        if k > 0 {
          StandsLater(Join(rest), prefix, texts, k);
        }
      }
    }
  }

  /** The pages' texts in order, each at its place, blank lines between, and nothing else. */
  ghost predicate HoldsPages(e: Extracted, n: nat, width: nat, recognize: Recognizer) {
    && e.pageCount == n
    && exists texts ::
         && |texts| == n && (forall k | 1 <= k <= n :: recognize(PageName(k, width)) == Ok(texts[k - 1]))
         && |e.text| == TotalLength(texts) + 2 * (n - 1)
         && forall k | 0 <= k < n :: Stands(e.text, texts, k)
  }

  /** Page `k` is the first that cannot be read, for this reason. */
  ghost predicate FirstUnreadable(message: string, k: nat, width: nat, recognize: Recognizer) {
    recognize(PageName(k, width)) == Err(message) && forall j | 1 <= j < k :: recognize(PageName(j, width)).Ok?
  }

  lemma PagesJoined(n: nat, width: nat, recognize: Recognizer)
    requires n > 0 && forall k | 1 <= k <= n :: recognize(PageName(k, width)).Ok?
    ensures var r := ReadPages(PageNames(n, width), recognize);
            r.Ok? && HoldsPages(r.value, n, width, recognize)
  {
    PagesRead(n, width, recognize);
    PageNamesAre(n, width);
    var texts := Recognized(recognize, PageNames(n, width)).value;
    JoinPlaces(texts);
    assert ReadPages(PageNames(n, width), recognize) == Ok(Extracted(Join(texts), n));
  }

  lemma PagesFail(n: nat, width: nat, recognize: Recognizer)
    requires n > 0 && !forall k | 1 <= k <= n :: recognize(PageName(k, width)).Ok?
    ensures var r := ReadPages(PageNames(n, width), recognize);
            r.Err? && r.error.PageFailed? && exists k | 1 <= k <= n ::
                FirstUnreadable(r.error.message, k, width, recognize)
  {
    var files := PageNames(n, width);
    PagesRead(n, width, recognize);
    PageNamesAre(n, width);
    FirstFailure(recognize, files);
    var i :| 0 <= i < n && recognize(files[i]) == Err(Recognized(recognize, files).error)
             && forall j | 0 <= j < i :: recognize(files[j]).Ok?;
    forall j | 1 <= j < i + 1 ensures recognize(PageName(j, width)).Ok? {
      assert files[j - 1] == PageName(j, width);
    }
    assert FirstUnreadable(Recognized(recognize, files).error, i + 1, width, recognize);
  }

  /**
    However the directory is listed, and whatever else is in it: page k's text stands
    at the total length of the pages before it plus two characters for each, a blank
    line between neighbours, and nothing else; the page count is n. The call fails
    exactly when there is no page or one cannot be read, with the first such error.
  */
  lemma {:induction false} TextInPageOrder(listing: seq<string>, others: seq<string>, n: nat, width: nat,
      recognize: Recognizer)
    requires n < Pow10(width)
    requires forall name | name in others :: !("page" <= name && |name| >= 4 && name[|name| - 4..] == ".png")
    requires multiset(listing) == multiset(PageNames(n, width)) + multiset(others)
    ensures var r := ReadPages(Sort(PageFiles(listing)), recognize);
            if n == 0 then r == Err(NoPageImages)
            else if forall k | 1 <= k <= n :: recognize(PageName(k, width)).Ok?
            then r.Ok? && HoldsPages(r.value, n, width, recognize)
            else r.Err? && r.error.PageFailed?
                 && exists k | 1 <= k <= n :: FirstUnreadable(r.error.message, k, width, recognize)
  {
    assert forall name | name in others :: !IsPageFile(name);
    ListingSorted(listing, others, n, width);
    PageNamesAre(n, width);
    if n > 0 {
      if forall k | 1 <= k <= n :: recognize(PageName(k, width)).Ok? {
        PagesJoined(n, width, recognize);
      } else {
        PagesFail(n, width, recognize);
      }
    }
  }
}
