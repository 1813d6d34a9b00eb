/**
 * The per-row rules of `ProductImportService` that compute values without
 * touching the database: row normalisation, the text-to-number and
 * text-to-boolean coercions, the category-list syntax, the choice of image
 * columns and of a downloaded image's extension, and the create / update /
 * skip decision.
 */
module ImportRules {
  import opened Wrappers
  import opened Text
  import opened ImportModels

  /** One cell of a file row: its column name and its text, `None` for an empty cell (pandas' NaN). */
  datatype Cell = Cell(column: string, value: Option<string>)

  type Row = seq<Cell>

  /** A normalised row: lower-cased, stripped column names to stripped texts. */
  type RowData = map<string, string>

  // ---------------------------------------------------------------------
  // Row normalisation
  // ---------------------------------------------------------------------

  /** The normalised form of a column name. */
  function Key(column: string): string {
    Lower(Strip(column))
  }

  /** Cell `i` is present and its column name normalises to `k`. */
  predicate Present(cells: Row, i: nat, k: string)
    requires i < |cells|
  {
    cells[i].value.Some? && Key(cells[i].column) == k
  }

  /** The index of the last present cell whose name normalises to `k`, or -1 when there is none. */
  function LastPresent(cells: Row, k: string): (r: int)
    ensures -1 <= r < |cells|
    ensures r >= 0 ==> Present(cells, r, k)
    ensures forall j :: r < j < |cells| ==> !Present(cells, j, k)
  {
    if cells == [] then -1
    else if Present(cells, |cells| - 1, k) then |cells| - 1
    else
      var r := LastPresent(cells[..|cells| - 1], k);
      PresentInFront(cells, k);
      r
  }

  /** A cell of the row without its last cell is present exactly when it is in the row. */
  lemma PresentInFront(cells: Row, k: string)
    requires cells != []
    ensures forall j :: 0 <= j < |cells| - 1 ==> (Present(cells[..|cells| - 1], j, k) <==> Present(cells, j, k))
  {
    forall j | 0 <= j < |cells| - 1
      ensures Present(cells[..|cells| - 1], j, k) <==> Present(cells, j, k)
    {
      assert cells[..|cells| - 1][j] == cells[j];
    }
  }

  /** Adding a cell at the end changes the last present index of its own name only. */
  lemma LastPresentSteps(cells: Row)
    requires cells != []
    ensures forall k :: LastPresent(cells, k) == if Present(cells, |cells| - 1, k) then |cells| - 1 else LastPresent(cells[..|cells| - 1], k)
  {
  }

  /**
   * The dictionary the row loop builds: exactly the normalised names of the
   * present cells, each with the stripped text of the last present cell of
   * that name (a later cell overwrites an earlier one).
   */
  function Normalize(cells: Row): (data: RowData)
    ensures forall k :: k in data <==> LastPresent(cells, k) >= 0
    ensures forall k :: k in data ==> data[k] == Strip(cells[LastPresent(cells, k)].value.value)
  {
    if cells == [] then map[]
    else
      var n := |cells| - 1;
      var prefix := cells[..n];
      var front := Normalize(prefix);
      LastPresentSteps(cells);
      assert forall j :: 0 <= j < n ==> prefix[j] == cells[j];
      match cells[n].value
      case None => front
      case Some(v) => front[Key(cells[n].column) := Strip(v)]
  }

  /** `data.get(k)`. */
  function Lookup(data: RowData, k: string): (v: Option<string>)
    ensures v.Some? <==> k in data
  {
    if k in data then Some(data[k]) else None
  }

  /** `data.get(k)` read as text, an absent key giving "" (both are falsy). */
  function Get(data: RowData, k: string): string {
    if k in data then data[k] else ""
  }

  // ---------------------------------------------------------------------
  // Coercions
  // ---------------------------------------------------------------------

  /** Texts `_to_decimal` and `_to_int` treat as no value (after lower-casing). */
  const NullTexts: seq<string> := ["nan", "none", "null", ""]

  /** Texts `_to_bool` reads as true (after lower-casing). */
  const BooleanTrue: seq<string> := ["true", "1", "yes", "да", "д", "y", "+", "on", "вкл", "да"]

  predicate IsNullText(v: Option<string>) {
    v.None? || v.value == "" || Lower(v.value) in NullTexts
  }

  /** The money text with ',' read as the decimal point and spaces, '₽' and '$' removed. */
  function CleanMoney(s: string): (r: string)
    ensures ',' !in r && ' ' !in r && '₽' !in r && '$' !in r
  {
    RemoveChar(RemoveChar(RemoveChar(ReplaceChar(s, ',', '.'), ' '), '₽'), '$')
  }

  /**
   * `_to_decimal`: `None` for a null text; otherwise the cleaned text as
   * `Decimal()` reads it, `None` where it is no finite decimal. A cleaned
   * text that is a plain literal reads as that literal's value.
   */
  function ToDecimal(v: Option<string>): (r: Option<real>)
    ensures IsNullText(v) ==> r.None?
    ensures !IsNullText(v) && ParseDecimal(CleanMoney(v.value)).Some? ==> r == ParseDecimal(CleanMoney(v.value))
  {
    if IsNullText(v) then None
    else DecimalText(CleanMoney(v.value))
  }

  lemma {:induction false} ReplaceCharAbsent(s: string, a: char, b: char)
    requires a !in s
    ensures ReplaceChar(s, a, b) == s
  {
    assert forall i :: 0 <= i < |s| ==> s[i] != a;
  }

  /** Cleaning a money text twice is cleaning it once. */
  lemma CleanMoneyIdempotent(s: string)
    ensures CleanMoney(CleanMoney(s)) == CleanMoney(s)
  {
    var t := CleanMoney(s);
    ReplaceCharAbsent(t, ',', '.');
    RemoveCharAbsent(t, ' ');
    RemoveCharAbsent(t, '₽');
    RemoveCharAbsent(t, '$');
  }

  /** A null text (in any letter case) never reads as a number: it is empty or starts with a letter. */
  lemma NullTextUnreadable(t: string)
    requires t == "" || Lower(t) in NullTexts
    ensures DecimalText(t).None?
  {
    if t == "" {
      assert Strip(t) == [];
      assert RemoveChar(Strip(t), '_') == [];
    } else {
      assert LowerChar(t[0]) == 'n';
      assert LowerChar(t[|t| - 1]) in "nel";
      StripPlain(t);
      DecimalTextNonNumeric(t);
    }
  }

  /** A null marker has nothing for cleaning to remove. */
  lemma NullTextClean(s: string)
    requires Lower(s) in NullTexts
    ensures CleanMoney(s) == s
  {
    assert ',' !in s && ' ' !in s && '₽' !in s && '$' !in s by {
      forall i | 0 <= i < |s| ensures s[i] !in ",₽$ " {
        assert Lower(s)[i] == LowerChar(s[i]);
      }
    }
    ReplaceCharAbsent(s, ',', '.');
    RemoveCharAbsent(s, ' ');
    RemoveCharAbsent(s, '₽');
    RemoveCharAbsent(s, '$');
  }

  /**
   * `_to_decimal` reads the cleaned text: spaces, currency signs and a comma
   * for the point make no difference, whether the cell holds them or not.
   */
  lemma ToDecimalCleaned(s: string)
    ensures ToDecimal(Some(s)) == ToDecimal(Some(CleanMoney(s)))
  {
    var t := CleanMoney(s);
    CleanMoneyIdempotent(s);
    if IsNullText(Some(s)) {
      NullTextUnreadable(s);
      if s != "" {
        NullTextClean(s);
      }
    } else if IsNullText(Some(t)) {
      NullTextUnreadable(t);
    }
  }

  /** `_to_int`: the decimal literal (with ',' as point) truncated toward zero, `None` where it does not parse. */
  function ToInt(v: Option<string>): (r: Option<int>)
    ensures IsNullText(v) ==> r.None?
    ensures !IsNullText(v) && ParseDecimal(ReplaceChar(v.value, ',', '.')).Some? ==> r.Some?
    ensures r.Some? ==> ParseDecimal(ReplaceChar(v.value, ',', '.')).Some?
                        && r.value == Trunc(ParseDecimal(ReplaceChar(v.value, ',', '.')).value)
  {
    if IsNullText(v) then None
    else match ParseDecimal(ReplaceChar(v.value, ',', '.'))
      case None => None
      case Some(x) => Some(Trunc(x))
  }

  /** `_to_bool`: true exactly for the listed texts, in any letter case; false for none and for "". */
  function ToBool(v: Option<string>): (b: bool)
    ensures b <==> v.Some? && Lower(v.value) in BooleanTrue
  {
    if v.None? || v.value == "" then false else Lower(v.value) in BooleanTrue
  }

  /** A price typed as digits followed by " ₽" reads as that whole number. */
  lemma {:induction false} ToDecimalRoubles(n: nat)
    ensures ToDecimal(Some(NatToString(n) + " ₽")) == Some(n as real)
  {
    var d := NatToString(n);
    var s := d + " ₽";
    assert AllDigits(d);
    assert ',' !in d && ' ' !in d && '₽' !in d && '$' !in d;
    assert Lower(s) != "" && Lower(s) !in NullTexts by {
      assert |Lower(s)| == |s| > 2 + 0;
      assert Lower(s)[|s| - 1] == '₽';
    }
    assert ReplaceChar(s, ',', '.') == s;
    RemoveCharConcat(d, " ₽", ' ');
    RemoveCharAbsent(d, ' ');
    assert RemoveChar(" ₽", ' ') == "₽";
    RemoveCharConcat(d, "₽", '₽');
    RemoveCharAbsent(d, '₽');
    assert RemoveChar("₽", '₽') == "";
    assert d + "" == d;
    RemoveCharAbsent(d, '$');
    assert CleanMoney(s) == d;
    ParseNatLiteral(n);
  }
  /**
   * A price typed as digits, any other whitespace character (a no-break
   * space, a tab) and `₽` reads as that whole number: cleaning keeps the
   * whitespace and `Decimal()` strips it.
   */
  lemma ToDecimalSpacedRoubles(n: nat, c: char)
    requires IsSpace(c) && c != ' '
    ensures ToDecimal(Some(NatToString(n) + [c] + "₽")) == Some(n as real)
  {
    var d := NatToString(n);
    var s := d + [c] + "₽";
    assert !IsNullText(Some(s)) by {
      assert |Lower(s)| == |s| > 2 + 0;
      assert Lower(s)[|s| - 1] == '₽';
    }
    CleanSpacedRoubles(d, c);
    StripTrailingSpace(d, c);
    DecimalTextStripped(d + [c]);
    ParseNatLiteral(n);
  }

  /** Cleaning `<digits><space>₽` removes only the sign when the space is not U+0020. */
  lemma CleanSpacedRoubles(d: string, c: char)
    requires IsDigits(d) && IsSpace(c) && c != ' '
    ensures CleanMoney(d + [c] + "₽") == d + [c]
  {
    var s := d + [c] + "₽";
    var x := d + [c];
    assert ',' !in s && ' ' !in s by {
      forall i | 0 <= i < |s| ensures s[i] != ',' && s[i] != ' ' {
        if i < |d| { assert s[i] == d[i]; }
      }
    }
    ReplaceCharAbsent(s, ',', '.');
    RemoveCharAbsent(s, ' ');
    assert '₽' !in x && '$' !in x by {
      forall i | 0 <= i < |x| ensures x[i] != '₽' && x[i] != '$' {
        if i < |d| { assert x[i] == d[i]; }
      }
    }
    RemoveCharConcat(x, "₽", '₽');
    RemoveCharAbsent(x, '₽');
    assert RemoveChar("₽", '₽') == "";
    assert x + "" == x;
    RemoveCharAbsent(x, '$');
  }



  /** A stock typed as a whole number reads as that number. */
  lemma ToIntWhole(n: nat)
    ensures ToInt(Some(NatToString(n))) == Some(n)
  {
    var d := NatToString(n);
    assert Lower(d) !in NullTexts by {
      assert IsDigit(Lower(d)[0]);
    }
    assert ReplaceChar(d, ',', '.') == d;
    ParseNatLiteral(n);
  }

  /** A stock typed with a decimal comma keeps the whole part: "12,75" reads as 12. */
  lemma ToIntFraction(n: nat, f: string)
    requires AllDigits(f)
    ensures ToInt(Some(NatToString(n) + "," + f)) == Some(n)
  {
    var d := NatToString(n);
    var x := FractionValue(n, f);
    UnsignedValue(d + "." + f, x);
    TruncBetween(x, n);
    CommaAsPoint(d, f);
    ToIntOf(d + "," + f, d + "." + f, x, n);
  }

  /** A cell that starts with a digit or a minus is no null text, so `_to_int` truncates its literal. */
  lemma ToIntOf(s: string, literal: string, x: real, k: int)
    requires s != [] && (s[0] == '-' || IsDigit(s[0]))
    requires ReplaceChar(s, ',', '.') == literal && ParseDecimal(literal) == Some(x) && Trunc(x) == k
    ensures ToInt(Some(s)) == Some(k)
  {
    assert Lower(s) !in NullTexts by {
      assert Lower(s)[0] == LowerChar(s[0]);
    }
  }

  /** Boolean cells are case-insensitive: "ДА", "Yes" and "ON" read like their lower-case forms. */
  lemma ToBoolIgnoresCase(s: string)
    ensures ToBool(Some(s)) == ToBool(Some(Lower(s)))
  {
    LowerIdempotent(s);
  }

  // ---------------------------------------------------------------------
  // Category lists
  // ---------------------------------------------------------------------

  /** The stripped, non-empty entries of `parts`, in order. */
  function NonEmptyStripped(parts: seq<string>): (names: seq<string>)
    ensures |names| <= |parts|
    ensures forall i :: 0 <= i < |names| ==> names[i] != "" && Strip(names[i]) == names[i]
  {
    if parts == [] then []
    else
      var front := NonEmptyStripped(parts[..|parts| - 1]);
      var t := Strip(parts[|parts| - 1]);
      StripIdempotent(parts[|parts| - 1]);
      if t == "" then front else front + [t]
  }

  /** `_parse_categories` before the database lookups: comma-separated names, stripped, empties dropped, order kept. */
  function CategoryNames(text: string): (names: seq<string>)
    ensures forall i :: 0 <= i < |names| ==> names[i] != "" && Strip(names[i]) == names[i] && ',' !in names[i]
  {
    var parts := Split(text, ',');
    NamesWithoutComma(parts);
    NonEmptyStripped(parts)
  }

  lemma {:induction false} NamesWithoutComma(parts: seq<string>)
    requires forall i :: 0 <= i < |parts| ==> ',' !in parts[i]
    ensures forall i :: 0 <= i < |NonEmptyStripped(parts)| ==> ',' !in NonEmptyStripped(parts)[i]
    decreases |parts|
  {
    if parts != [] {
      NamesWithoutComma(parts[..|parts| - 1]);
      var p := parts[|parts| - 1];
      var t := Strip(p);
      assert forall k :: 0 <= k < |t| ==> t[k] == p[LeadingSpaces(p) + k];
      assert ',' !in t;
    }
  }

  lemma {:induction false} NonEmptyStrippedOfClean(parts: seq<string>)
    requires forall i :: 0 <= i < |parts| ==> parts[i] != "" && Strip(parts[i]) == parts[i]
    ensures NonEmptyStripped(parts) == parts
    decreases |parts|
  {
    if parts != [] {
      NonEmptyStrippedOfClean(parts[..|parts| - 1]);
      assert parts[..|parts| - 1] + [parts[|parts| - 1]] == parts;
    }
  }

  /** Writing clean names joined by commas and parsing the text gives back the names. */
  lemma CategoryNamesRoundTrip(names: seq<string>)
    requires |names| >= 1
    requires forall i :: 0 <= i < |names| ==> names[i] != "" && Strip(names[i]) == names[i] && ',' !in names[i]
    ensures CategoryNames(Join(names, ",")) == names
  {
    JoinThenSplit(names, ',');
    NonEmptyStrippedOfClean(names);
  }

  // ---------------------------------------------------------------------
  // Images
  // ---------------------------------------------------------------------

  /** A non-empty `image_<n>` cell, and the position `n`. */
  datatype ImageCell = ImageCell(url: string, position: nat)

  /** The non-empty cells among `image_1` .. `image_<n>`, by position. */
  function ImageCells(data: RowData, n: nat): (cells: seq<ImageCell>)
    ensures |cells| <= n
    ensures forall i :: 0 <= i < |cells| ==> 1 <= cells[i].position <= n && cells[i].url != ""
    ensures forall i :: 0 <= i < |cells| ==> cells[i].url == Get(data, "image_" + NatToString(cells[i].position))
    ensures forall i, j :: 0 <= i < j < |cells| ==> cells[i].position < cells[j].position
  {
    if n == 0 then []
    else
      var front := ImageCells(data, n - 1);
      var url := Get(data, "image_" + NatToString(n));
      if url != "" then front + [ImageCell(url, n)] else front
  }

  /** Every non-empty column among `image_1` .. `image_<n>` has its cell. */
  lemma {:induction false} ImageCellsComplete(data: RowData, n: nat, k: nat)
    requires 1 <= k <= n && Get(data, "image_" + NatToString(k)) != ""
    ensures exists i :: 0 <= i < |ImageCells(data, n)| && ImageCells(data, n)[i].position == k
  {
    var front := ImageCells(data, n - 1);
    var cells := ImageCells(data, n);
    if k < n {
      ImageCellsComplete(data, n - 1, k);
      var i :| 0 <= i < |front| && front[i].position == k;
      assert cells[i] == front[i];
    } else {
      assert cells[|cells| - 1].position == n;
    }
  }

  /** Image URLs treated as no image (after lower-casing). */
  const UrlNullTexts: seq<string> := ["nan", "none", "null", "-"]

  /** Extensions a downloaded image may keep. */
  const ImageExtensions: seq<string> := ["jpg", "jpeg", "png", "webp", "gif"]

  /**
   * The extension given to a downloaded image: the text after the URL's
   * last '.', up to any '?', cut to four characters; "jpg" when that is not
   * an allowed extension.
   */
  function ImageExtension(url: string): (ext: string)
    ensures ext in ImageExtensions
    ensures Take(FirstField(LastField(url, '.'), '?'), 4) in ImageExtensions ==> ext == Take(FirstField(LastField(url, '.'), '?'), 4)
    ensures Take(FirstField(LastField(url, '.'), '?'), 4) !in ImageExtensions ==> ext == "jpg"
  {
    var e := Take(FirstField(LastField(url, '.'), '?'), 4);
    if e in ImageExtensions then e else "jpg"
  }

  /** A URL ending in ".<allowed extension>", possibly followed by a query, keeps that extension. */
  lemma ImageExtensionKept(stem: string, ext: string, query: string)
    requires ext in ImageExtensions && '.' !in query
    ensures ImageExtension(stem + "." + ext + "?" + query) == ext
    ensures ImageExtension(stem + "." + ext) == ext
  {
    var tail := ext + "?" + query;
    assert '.' !in ext && '?' !in ext;
    assert '.' !in tail;
    LastDotField(stem, tail);
    assert stem + "." + ext + "?" + query == stem + "." + tail;
    assert tail[|ext|] == '?' && tail[..|ext|] == ext;
    assert IndexOf(tail, '?') == |ext|;
    LastDotField(stem, ext);
  }

  /** The text after the last '.' of `stem + "." + tail`, for a tail without a '.', is the tail. */
  lemma {:induction false} LastDotField(stem: string, tail: string)
    requires '.' !in tail
    ensures LastField(stem + "." + tail, '.') == tail
    decreases |stem|
  {
    if '.' in stem {
      var i := IndexOf(stem, '.');
      var rest := stem[i + 1..];
      LastDotField(rest, tail);
      assert stem + "." + tail == stem[..i] + ['.'] + (rest + "." + tail);
      LastFieldAfterFirst(stem[..i], rest + "." + tail, '.');
    } else {
      assert stem + "." + tail == stem + ['.'] + tail;
      LastFieldAfterFirst(stem, tail, '.');
      assert Split(tail, '.') == [tail];
    }
  }

  // ---------------------------------------------------------------------
  // The create / update / skip decision
  // ---------------------------------------------------------------------

  datatype Action = SkipExisting | SkipMissing | UpdateExisting | CreateNew

  /**
   * What a row with the required fields does: an existing product (found
   * only by a non-empty SKU) is skipped by a create-only import and updated
   * otherwise; a new one is skipped by an update-only import and created
   * otherwise.
   */
  function Decide(t: ImportType, existing: bool): (a: Action)
    ensures a == SkipExisting <==> existing && t == Create
    ensures a == UpdateExisting <==> existing && t != Create
    ensures a == SkipMissing <==> !existing && t == Update
    ensures a == CreateNew <==> !existing && t != Update
  {
    if existing then (if t == Create then SkipExisting else UpdateExisting)
    else (if t == Update then SkipMissing else CreateNew)
  }
}
