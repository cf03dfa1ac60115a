/**
 * Documents and the JSON-lines files that hold them. JSON encoding itself is
 * not modelled: a line is either a record this model can decode or some
 * other text, for which `json.loads` raises.
 */
module Documents {
  import opened Wrappers
  import opened Seqs
  import opened Text

  /** A JSON object of string fields (a document's or an index entry's metadata). */
  type Meta = map<string, string>

  /** A decoded document record; each key may be absent from the JSON object. */
  datatype Document = Document(id: Option<string>, text: Option<string>, metadata: Option<Meta>)

  /** One line of a JSON-lines file. */
  datatype JsonLine<T> = Record(value: T) | Other(raw: string)

  /** `json.loads` raised on a non-blank line (its message does not name the file line). */
  datatype LoadError = MalformedJson

  /** `json.dump(v, f); f.write("\n")` for each value in order. */
  function WriteLines<T>(values: seq<T>): (lines: seq<JsonLine<T>>)
    ensures |lines| == |values|
  {
    Map((v: T) => Record(v), values)
  }

  /** What `load_documents` returns for a file with these lines (any record type). */
  function ReadDocuments<T>(lines: seq<JsonLine<T>>): Result<seq<T>, LoadError> {
    if lines == [] then Success([])
    else
      match ReadDocuments(lines[..|lines| - 1])
      case Failure(e) => Failure(e)
      case Success(docs) =>
        match lines[|lines| - 1]
        case Record(d) => Success(docs + [d])
        case Other(raw) =>
          if Strip(raw) == "" then Success(docs) else Failure(MalformedJson)
  }

  /** `load_documents`: strips each line, skips blank ones and decodes the rest. */
  method LoadDocuments(lines: seq<JsonLine<Document>>) returns (r: Result<seq<Document>, LoadError>)
    ensures r == ReadDocuments(lines)
  {
    var documents: seq<Document> := [];
    for k := 0 to |lines|
      invariant ReadDocuments(lines[..k]) == Success(documents)
    {
      ReadStep(lines, k);
      match lines[k]
      case Record(d) =>
        documents := documents + [d];
      case Other(raw) =>
        var line := Strip(raw);
        if line != "" {
          FailureDecides(lines, k + 1);
          return Failure(MalformedJson);
        }
    }
    assert lines[..|lines|] == lines;
    r := Success(documents);
  }

  /** Reading one more line: a record is appended, a blank line skipped, anything else fails. */
  lemma ReadStep<T>(lines: seq<JsonLine<T>>, k: nat)
    requires k < |lines| && ReadDocuments(lines[..k]).Success?
    ensures ReadDocuments(lines[..k + 1]) ==
      match lines[k]
      case Record(d) => Success(ReadDocuments(lines[..k]).value + [d])
      case Other(raw) => if Strip(raw) == "" then ReadDocuments(lines[..k]) else Failure(MalformedJson)
  {
    assert lines[..k + 1][..k] == lines[..k];
  }

  /** A failing prefix decides the outcome of the whole file. */
  lemma FailureDecides<T>(lines: seq<JsonLine<T>>, k: nat)
    requires k <= |lines| && ReadDocuments(lines[..k]).Failure?
    ensures ReadDocuments(lines) == ReadDocuments(lines[..k])
  {
    ReadDocumentsFailureSticks(lines[..k], lines[k..]);
    assert lines[..k] + lines[k..] == lines;
  }

  /** The first undecodable line decides the outcome, whatever follows it. */
  lemma {:induction false} ReadDocumentsFailureSticks<T>(p: seq<JsonLine<T>>, q: seq<JsonLine<T>>)
    requires ReadDocuments(p).Failure?
    ensures ReadDocuments(p + q) == ReadDocuments(p)
  {
    if q == [] {
      assert p + q == p;
    } else {
      ReadDocumentsFailureSticks(p, q[..|q| - 1]);
      assert (p + q)[..|p + q| - 1] == p + q[..|q| - 1];
    }
  }

  /** Reading back what was written gives the same documents in the same order. */
  lemma {:induction false} WriteReadRoundTrip<T>(docs: seq<T>)
    ensures ReadDocuments(WriteLines(docs)) == Success(docs)
  {
    if docs != [] {
      var init := docs[..|docs| - 1];
      WriteReadRoundTrip(init);
      assert WriteLines(docs)[..|docs| - 1] == WriteLines(init);
      assert init + [docs[|docs| - 1]] == docs;
    }
  }

  /** A whitespace-only last line is skipped. */
  lemma BlankLastLineSkipped<T>(a: seq<JsonLine<T>>, raw: string)
    requires Strip(raw) == ""
    ensures ReadDocuments(a + [Other(raw)]) == ReadDocuments(a)
  {
    assert (a + [Other(raw)])[..|a|] == a;
  }

  /** Files that load alike still load alike after the same line is appended to both. */
  lemma ReadCongruent<T>(s: seq<JsonLine<T>>, t: seq<JsonLine<T>>, x: JsonLine<T>)
    requires ReadDocuments(s) == ReadDocuments(t)
    ensures ReadDocuments(s + [x]) == ReadDocuments(t + [x])
  {
    assert (s + [x])[..|s|] == s;
    assert (t + [x])[..|t|] == t;
  }

  /** A whitespace-only line anywhere in the file is skipped and changes nothing. */
  lemma {:induction false} BlankLineSkipped<T>(a: seq<JsonLine<T>>, raw: string, b: seq<JsonLine<T>>)
    requires Strip(raw) == ""
    ensures ReadDocuments(a + [Other(raw)] + b) == ReadDocuments(a + b)
  {
    if b == [] {
      assert a + [Other(raw)] + b == a + [Other(raw)];
      assert a + b == a;
      BlankLastLineSkipped(a, raw);
    } else {
      var b', x := b[..|b| - 1], b[|b| - 1];
      LastSplit(b);
      AppendAssoc(a + [Other(raw)], b', [x]);
      AppendAssoc(a, b', [x]);
      BlankLineSkipped(a, raw, b');
      ReadCongruent(a + [Other(raw)] + b', a + b', x);
    }
  }
}
