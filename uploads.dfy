/**
 * Upload paths of the form `<prefix>/<YYYY>/<MM>/<stem>.<ext>`, shared by
 * the import-file and feedback-attachment `upload_to` callables. The
 * extension is the text after the last `.` of the uploaded file name
 * (Python's `filename.split('.')[-1]`), the date is rendered by
 * `strftime("%Y/%m")`.
 */
module Uploads {
  import opened Text

  datatype Date = Date(year: nat, month: nat)

  /** Whether `c` is a lower-case hexadecimal digit, as in `uuid4().hex`. */
  predicate IsHex(c: char) {
    '0' <= c <= '9' || 'a' <= c <= 'f'
  }

  /** A calendar month as `datetime` can represent it. */
  predicate ValidDate(d: Date) {
    1 <= d.year <= 9999 && 1 <= d.month <= 12
  }

  /** The extension an upload path keeps: everything after the last `.` (the whole name when there is none). */
  function UploadExtension(filename: string): (ext: string)
    ensures '.' !in ext
    ensures forall c :: c in ext ==> c in filename
    ensures '.' !in filename ==> ext == filename
  {
    var ext := LastField(filename, '.');
    LastFieldIsSuffix(filename, '.');
    assert forall c :: c in ext ==> c in filename by {
      forall c | c in ext ensures c in filename {
        var k :| 0 <= k < |ext| && ext[k] == c;
        assert filename[|filename| - |ext| + k] == c;
      }
    }
    ext
  }

  /** The extension is the tail of the name after its last dot. */
  lemma UploadExtensionAfterLastDot(filename: string)
    ensures |UploadExtension(filename)| <= |filename|
    ensures UploadExtension(filename) == filename[|filename| - |UploadExtension(filename)|..]
    ensures '.' in filename ==> UploadExtension(filename) == filename[LastIndexOf(filename, '.') + 1..]
  {
    assert UploadExtension(filename) == LastField(filename, '.');
    LastFieldIsSuffix(filename, '.');
    if '.' in filename {
      LastFieldAfterLast(filename, '.');
    }
  }

  function DatedPath(prefix: string, d: Date, stem: string, filename: string): (path: string)
    requires ValidDate(d)
    ensures '/' !in prefix && '/' !in stem && '/' !in filename ==>
              Split(path, '/') == [prefix, NatToString(d.year), ZeroPad(d.month, 2), stem + "." + UploadExtension(filename)]
    ensures '.' !in prefix && '.' !in stem ==> LastField(path, '.') == UploadExtension(filename)
  {
    var y, m, ext := NatToString(d.year), ZeroPad(d.month, 2), UploadExtension(filename);
    PathParts(prefix, y, m, stem, ext);
    prefix + "/" + y + "/" + m + "/" + stem + "." + ext
  }

  lemma PathParts(prefix: string, y: string, m: string, stem: string, ext: string)
    requires AllDigits(y) && AllDigits(m) && '.' !in ext
    ensures var path := prefix + "/" + y + "/" + m + "/" + stem + "." + ext;
      ('/' !in prefix && '/' !in stem && '/' !in ext ==> Split(path, '/') == [prefix, y, m, stem + "." + ext])
      && ('.' !in prefix && '.' !in stem ==> LastField(path, '.') == ext)
  {
    var file := stem + "." + ext;
    if '/' !in prefix && '/' !in stem && '/' !in ext {
      assert '/' !in y && '/' !in m;
      PathSegments(prefix, y, m, file);
      assert prefix + "/" + y + "/" + m + "/" + stem + "." + ext == prefix + "/" + y + "/" + m + "/" + file;
    }
    if '.' !in prefix && '.' !in stem {
      var head := prefix + "/" + y + "/" + m + "/" + stem;
      assert '.' !in y && '.' !in m;
      assert '.' !in head;
      SplitAfterFirst(head, ext, '.');
      assert prefix + "/" + y + "/" + m + "/" + stem + "." + ext == head + ['.'] + ext;
    }
  }

  lemma PathSegments(prefix: string, y: string, m: string, file: string)
    requires '/' !in prefix && '/' !in y && '/' !in m && '/' !in file
    ensures Split(prefix + "/" + y + "/" + m + "/" + file, '/') == [prefix, y, m, file]
  {
    NestedSegments(prefix, y, m, file);
    Regroup(prefix, y, m, file);
  }

  lemma NestedSegments(prefix: string, y: string, m: string, file: string)
    requires '/' !in prefix && '/' !in y && '/' !in m && '/' !in file
    ensures Split(prefix + ['/'] + (y + ['/'] + (m + ['/'] + file)), '/') == [prefix, y, m, file]
  {
    var parts := [prefix, y, m, file];
    JoinThenSplit(parts, '/');
    assert parts[1..][1..][1..] == [file];
    assert Join(parts[1..][1..], ['/']) == m + ['/'] + file;
    assert Join(parts[1..], ['/']) == y + ['/'] + (m + ['/'] + file);
  }

  lemma Regroup(prefix: string, y: string, m: string, file: string)
    ensures prefix + "/" + y + "/" + m + "/" + file == prefix + ['/'] + (y + ['/'] + (m + ['/'] + file))
  {
  }
}
