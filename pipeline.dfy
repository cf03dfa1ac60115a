/**
 * How the pieces fit together: the documents `create_documents` derives from
 * a unified ticket table are all indexable, so `_prepare_items` keeps every
 * row; and the dates the normaliser writes are never understood by the
 * assistant's `%m/%d/%Y` date parser.
 */
module Pipeline {
  import opened Wrappers
  import opened Seqs
  import opened Text
  import opened Calendar
  import opened Tables
  import opened Documents
  import opened Tickets
  import opened VectorIndex
  import opened Assistant

  /** A canonical ticket ID has no surrounding whitespace. */
  lemma TicketIdTrimmed(id: string)
    requires IsTicketId(id)
    ensures Strip(id) == id && id != ""
  {
    assert id[0] == 'T' && IsDigit(id[|id| - 1]) by {
      assert id[..|TicketPrefix|][0] == id[0];
      assert id[|TicketPrefix|..][|id| - 1 - |TicketPrefix|] == id[|id| - 1];
    }
    StripOfTrimmed(id);
  }

  /** The embedding text never strips to "": it starts with "Issue: ". */
  lemma EmbeddingTextNotBlank(issue: string, description: string)
    ensures Strip(EmbeddingText(issue, description)) != ""
  {
    var e := EmbeddingText(issue, description);
    assert e[0] == 'I';
    StripNonEmpty(e);
  }

  /** A document whose id is a canonical ID and whose text is non-blank is kept under that ID. */
  lemma DocumentIndexable(d: Document, id: string, text: string)
    requires IsTicketId(id) && d.id == Some(Strip(id)) && d.text == Some(Strip(text)) && Strip(text) != ""
    ensures Indexable(d) && ItemId(d) == id
  {
    assert ItemId(d) == id by {
      TicketIdTrimmed(id);
    }
    assert ItemText(d) == Strip(text) by {
      StripIdempotent(text);
    }
    assert id != "";
  }

  /** A row with a canonical ID and a non-blank embedding text gives an indexable document. */
  lemma RowIndexable(t: Table, i: nat)
    requires t.WellFormed() && i < |t.rows| && "ticket_id" in t.columns && "embedding_text" in t.columns
    requires IsTicketId(t.Cell(i, "ticket_id")) && Strip(t.Cell(i, "embedding_text")) != ""
    ensures var u := BackFill(t, MetadataColumns);
      && "embedding_text" in u.columns
      && Indexable(DocumentsOf(u)[i])
      && ItemId(DocumentsOf(u)[i]) == t.Cell(i, "ticket_id")
  {
    DocumentFields(t, i, "ticket_id");
    var u := BackFill(t, MetadataColumns);
    assert Field(t, i, "ticket_id") == Strip(t.Cell(i, "ticket_id"));
    DocumentIndexable(DocumentsOf(u)[i], t.Cell(i, "ticket_id"), t.Cell(i, "embedding_text"));
  }

  /** The document of a normalised row is indexable, under the row's canonical ID. */
  lemma NormalizedRowIndexable(t: Table, i: nat)
    requires Normalized(t) && i < |t.rows|
    ensures var u := BackFill(t, MetadataColumns);
      && "embedding_text" in u.columns
      && Indexable(DocumentsOf(u)[i])
      && ItemId(DocumentsOf(u)[i]) == t.Cell(i, "ticket_id")
  {
    EmbeddingTextNotBlank(t.Cell(i, "issue"), t.Cell(i, "description"));
    RowIndexable(t, i);
  }

  /** When every document is indexable, `_prepare_items` keeps them all, in order. */
  lemma AllIndexableKept(docs: seq<Document>)
    requires forall i :: 0 <= i < |docs| ==> Indexable(docs[i])
    ensures Kept(docs) == docs
    ensures |Map(ItemId, Kept(docs))| == |docs|
    ensures forall i :: 0 <= i < |docs| ==> Map(ItemId, Kept(docs))[i] == ItemId(docs[i])
  {
    FilterAll(Indexable, docs);
  }

  /** Every document created from a normalised table is indexable under its row's ID. */
  lemma NormalizedDocumentsIndexable(t: Table)
    requires Normalized(t)
    ensures "embedding_text" in BackFill(t, MetadataColumns).columns
    ensures var docs := DocumentsOf(BackFill(t, MetadataColumns));
      && |docs| == |t.rows|
      && forall i :: 0 <= i < |t.rows| ==> Indexable(docs[i]) && ItemId(docs[i]) == t.Cell(i, "ticket_id")
  {
    BackFillKeeps(t, MetadataColumns);
    forall i | 0 <= i < |t.rows|
      ensures Indexable(DocumentsOf(BackFill(t, MetadataColumns))[i])
      ensures ItemId(DocumentsOf(BackFill(t, MetadataColumns))[i]) == t.Cell(i, "ticket_id")
    {
      NormalizedRowIndexable(t, i);
    }
  }

  /**
   * Every row of a normalised table survives into the index: the documents
   * read back from the written file are exactly the created ones, and
   * `_prepare_items` keeps all of them, each under its row's ticket ID.
   */
  lemma NormalizedTableFullyIndexed(t: Table)
    requires Normalized(t)
    ensures var u := BackFill(t, MetadataColumns);
      && "embedding_text" in u.columns
      && ReadDocuments(WriteLines(DocumentsOf(u))) == Success(DocumentsOf(u))
      && Kept(DocumentsOf(u)) == DocumentsOf(u)
      && |Map(ItemId, Kept(DocumentsOf(u)))| == |t.rows|
      && forall i :: 0 <= i < |t.rows| ==> Map(ItemId, Kept(DocumentsOf(u)))[i] == t.Cell(i, "ticket_id")
  {
    CreatedDocumentsReadBack(t);
    NormalizedDocumentsIndexable(t);
    AllIndexableKept(DocumentsOf(BackFill(t, MetadataColumns)));
  }

  /** `unify_tickets` output, whatever the sources, is fully indexed. */
  lemma UnifiedTicketsFullyIndexed(t: Table, parse: DateParser)
    requires t.WellFormed()
    ensures var u := BackFill(NormalizeSpec(t, parse), MetadataColumns);
      && "embedding_text" in u.columns
      && Kept(DocumentsOf(u)) == DocumentsOf(u)
      && |DocumentsOf(u)| == |t.rows|
  {
    NormalizeSpecNormalized(t, parse);
    NormalizedTableFullyIndexed(NormalizeSpec(t, parse));
  }

  /** `strftime("%Y-%m-%d")` output has no surrounding whitespace. */
  lemma IsoFormatTrimmed(d: Date)
    ensures Strip(IsoFormat(d)) == IsoFormat(d)
  {
    var y := ZeroPad(d.year, 4);
    var day := ZeroPad(d.day, 2);
    ZeroPadDigits(d.year, 4);
    ZeroPadDigits(d.day, 2);
    var s := IsoFormat(d);
    assert s[0] == y[0];
    assert s[|s| - 1] == day[|day| - 1];
    StripOfTrimmed(s);
  }

  /** A cell the date step writes is never read by `_parse_date`, once stripped. */
  lemma DateCellNeverParses(s: string)
    requires IsDateCell(s)
    ensures ParseDate(Strip(s)) == None
  {
    if s == "" {
      assert Strip(s) == "" by {
        StripOfTrimmed(s);
      }
    } else {
      var d :| s == IsoFormat(d);
      assert Strip(s) == IsoFormat(d) by {
        IsoFormatTrimmed(d);
      }
      ParseDateRejectsIso(d);
    }
  }

  /**
   * The date a candidate carries comes from a normalised row, so the
   * assistant's parser never reads it: `_parsed_date` is always `None`.
   */
  lemma NormalizedDatesNeverParse(t: Table, i: nat)
    requires Normalized(t) && i < |t.rows|
    ensures ParseDate(Strip(t.Cell(i, "date"))) == None
  {
    DateCellNeverParses(t.Cell(i, "date"));
  }

  // ----------------------------------------------------------------------
  // A missing `resolved` cell

  /**
   * As written: a `resolved` cell missing in memory reaches the metadata as
   * `str(NaN).strip()`, the text "nan", which `_parse_resolved` reads as
   * `bool(float("nan"))`, true. The assistant then shows that ticket as a
   * confirmed resolution, with no badge.
   */
  lemma MissingResolvedReadAsConfirmed(t: Ticket)
    requires t.metadata.Some? && "resolved" in t.metadata.value
    requires t.metadata.value["resolved"] == Strip(StrAsWritten(Missing))
    ensures CandidateOf(t).resolved == Some(true)
    ensures StatusBadge(CandidateOf(t).resolved) == None
  {
    assert t.metadata.value["resolved"] == "nan" by {
      StripOfTrimmed("nan");
    }
    assert CandidateOf(t).resolved == Some(true) by {
      assert NonFiniteLiteral("nan");
      ParseResolvedNonFinite("nan");
      CandidateResolved(t, "nan");
    }
  }

  /**
   * Read as the back-fills write it, a missing `resolved` cell is "": the
   * ticket's resolution is unknown and carries the "Unknown resolution
   * status." badge.
   */
  lemma MissingResolvedReadAsUnknown(t: Ticket)
    requires t.metadata.Some? && "resolved" in t.metadata.value
    requires t.metadata.value["resolved"] == Strip(CellText(Missing))
    ensures CandidateOf(t).resolved == None
    ensures StatusBadge(CandidateOf(t).resolved) == Some(BadgeUnknown)
  {
    assert t.metadata.value["resolved"] == "" by {
      StripOfTrimmed("");
    }
    CandidateResolved(t, "");
  }
}
