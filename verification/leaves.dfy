/** The rows of the three committed tables and the leaf encoders that turn a
    row into one `:`-joined string. Field values that the original renders
    through a library (decimals, JSON, the status enum) are carried here
    already rendered; integers and timestamps are rendered by the model. */
module Leaves {
  import opened Wrappers
  import opened Text

  /** A `chrono::NaiveDateTime`: whole seconds since the Unix epoch plus the
      sub-second nanoseconds. */
  datatype NaiveDateTime = NaiveDateTime(seconds: int, nanos: nat)

  /** `.and_utc().timestamp()`: the whole Unix seconds; the sub-second part
      is dropped. */
  function Timestamp(t: NaiveDateTime): int
  {
    t.seconds
  }

  /** An `oil_token` row. `quantity`, `currentPrice` and `reservePrice` are
      the decimals' text, `qualityReport` and `storageConditions` the JSON
      values' text, and `status` the status enum's text when present. */
  datatype OilTokenRow = OilTokenRow(
    id: int,
    tokenId: int,
    oilType: string,
    grade: string,
    quantity: string,
    unit: string,
    location: string,
    certification: string,
    qualityReport: string,
    storageConditions: string,
    expiryDate: NaiveDateTime,
    currentPrice: string,
    reservePrice: string,
    status: Option<string>,
    owner: string,
    createdAt: NaiveDateTime,
    updatedAt: NaiveDateTime)

  /** A `tokenization` row; `amount` is the decimal's text. */
  datatype TokenizationRow = TokenizationRow(
    id: int,
    oilTokenId: int,
    tokenizerId: string,
    amount: string,
    createdAt: NaiveDateTime,
    updatedAt: NaiveDateTime)

  /** A `comment` row. */
  datatype CommentRow = CommentRow(
    id: int,
    oilTokenId: int,
    user: string,
    content: string,
    createdAt: NaiveDateTime,
    updatedAt: NaiveDateTime)

  /** `status.as_ref().map(|s| s.to_string()).unwrap_or_default()`. */
  function StatusText(status: Option<string>): (r: string)
    ensures status.Some? ==> r == status.value
    ensures status.None? ==> r == ""
  {
    match status
    case Some(s) => s
    case None => ""
  }

  // ---------------------------------------------------------------------
  // Oil-token leaf
  // ---------------------------------------------------------------------

  /** The seventeen rendered fields of an oil-token leaf, in format order. */
  function OilTokenFields(row: OilTokenRow): (fs: seq<string>)
    ensures |fs| == 17
  {
    [IntToDecimal(row.id), IntToDecimal(row.tokenId), row.oilType, row.grade,
     row.quantity, row.unit, row.location, row.certification,
     row.qualityReport, row.storageConditions, IntToDecimal(Timestamp(row.expiryDate)),
     row.currentPrice, row.reservePrice, StatusText(row.status), row.owner,
     IntToDecimal(Timestamp(row.createdAt)), IntToDecimal(Timestamp(row.updatedAt))]
  }

  /** None of the oil-token fields that carry free text holds the separator
      (JSON text with an object in it always does). */
  predicate OilTokenTextSeparatorFree(row: OilTokenRow)
  {
    && SeparatorFree(row.oilType) && SeparatorFree(row.grade) && SeparatorFree(row.quantity)
    && SeparatorFree(row.unit) && SeparatorFree(row.location) && SeparatorFree(row.certification)
    && SeparatorFree(row.qualityReport) && SeparatorFree(row.storageConditions)
    && SeparatorFree(row.currentPrice) && SeparatorFree(row.reservePrice)
    && SeparatorFree(StatusText(row.status)) && SeparatorFree(row.owner)
  }

  lemma OilTokenFieldsSeparatorFree(row: OilTokenRow)
    ensures OilTokenTextSeparatorFree(row) <==>
      forall i :: 0 <= i < 17 ==> SeparatorFree(OilTokenFields(row)[i])
  {
    var fs := OilTokenFields(row);
    if forall i :: 0 <= i < 17 ==> SeparatorFree(fs[i]) {
      assert SeparatorFree(fs[2]) && SeparatorFree(fs[3]) && SeparatorFree(fs[4]);
      assert SeparatorFree(fs[5]) && SeparatorFree(fs[6]) && SeparatorFree(fs[7]);
      assert SeparatorFree(fs[8]) && SeparatorFree(fs[9]) && SeparatorFree(fs[11]);
      assert SeparatorFree(fs[12]) && SeparatorFree(fs[13]) && SeparatorFree(fs[14]);
    }
  }

  /** One oil-token leaf. It reads back as the pieces of its rendered
      fields in format order (identifier, token id, type, grade, quantity,
      unit, location, certification, quality report, storage conditions,
      expiry seconds, price, reserve price, status (empty when absent),
      owner, created and updated seconds), a field holding the separator
      giving several pieces. So it reads back as at least seventeen pieces,
      as exactly seventeen when no free-text field holds the separator, and
      then the pieces are the fields themselves. */
  function OilTokenRecord(row: OilTokenRow): (leaf: string)
    ensures Split(leaf) == SplitAll(OilTokenFields(row))
    ensures |Split(leaf)| >= 17
    ensures |Split(leaf)| == 17 <==> OilTokenTextSeparatorFree(row)
    ensures OilTokenTextSeparatorFree(row) ==> Split(leaf) == OilTokenFields(row)
  {
    OilTokenFieldsSeparatorFree(row);
    JoinFieldCount(OilTokenFields(row));
    Join(OilTokenFields(row))
  }

  // ---------------------------------------------------------------------
  // Tokenization leaf
  // ---------------------------------------------------------------------

  /** The six rendered fields of a tokenization leaf, in format order. */
  function TokenizationFields(row: TokenizationRow): (fs: seq<string>)
    ensures |fs| == 6
  {
    [IntToDecimal(row.id), IntToDecimal(row.oilTokenId), row.tokenizerId,
     row.amount, IntToDecimal(Timestamp(row.createdAt)), IntToDecimal(Timestamp(row.updatedAt))]
  }

  /** One tokenization leaf, `id:oil_token_id:tokenizer_id:amount:created:updated`.
      It reads back as the pieces of those fields, timestamps in whole
      seconds; as exactly six pieces when neither the tokenizer id nor the
      amount text holds the separator, and then as the fields themselves. */
  function TokenizationRecord(row: TokenizationRow): (leaf: string)
    ensures Split(leaf) == SplitAll(TokenizationFields(row))
    ensures |Split(leaf)| >= 6
    ensures |Split(leaf)| == 6 <==> SeparatorFree(row.tokenizerId) && SeparatorFree(row.amount)
    ensures SeparatorFree(row.tokenizerId) && SeparatorFree(row.amount) ==>
      Split(leaf) == [IntToDecimal(row.id), IntToDecimal(row.oilTokenId), row.tokenizerId,
                      row.amount, IntToDecimal(Timestamp(row.createdAt)),
                      IntToDecimal(Timestamp(row.updatedAt))]
  {
    var fs := TokenizationFields(row);
    JoinFieldCount(fs);
    assert (forall i :: 0 <= i < 6 ==> SeparatorFree(fs[i])) <==>
      SeparatorFree(row.tokenizerId) && SeparatorFree(row.amount) by {
      if forall i :: 0 <= i < 6 ==> SeparatorFree(fs[i]) {
        assert SeparatorFree(fs[2]) && SeparatorFree(fs[3]);
      }
    }
    Join(fs)
  }

  // ---------------------------------------------------------------------
  // Comment leaf
  // ---------------------------------------------------------------------

  /** The six rendered fields of a comment leaf, in format order. */
  function CommentFields(row: CommentRow): (fs: seq<string>)
    ensures |fs| == 6
  {
    [IntToDecimal(row.id), IntToDecimal(row.oilTokenId), row.user,
     row.content, IntToDecimal(Timestamp(row.createdAt)), IntToDecimal(Timestamp(row.updatedAt))]
  }

  /** One comment leaf, `id:oil_token_id:user:content:created:updated`, with
      the content inserted as is. It reads back as the pieces of those
      fields, timestamps in whole seconds, so a separator in the user or
      the content adds pieces; as exactly six pieces when neither holds the
      separator, and then as the fields themselves. */
  function CommentRecord(row: CommentRow): (leaf: string)
    ensures Split(leaf) == SplitAll(CommentFields(row))
    ensures |Split(leaf)| >= 6
    ensures |Split(leaf)| == 6 <==> SeparatorFree(row.user) && SeparatorFree(row.content)
    ensures SeparatorFree(row.user) && SeparatorFree(row.content) ==>
      Split(leaf) == [IntToDecimal(row.id), IntToDecimal(row.oilTokenId), row.user,
                      row.content, IntToDecimal(Timestamp(row.createdAt)),
                      IntToDecimal(Timestamp(row.updatedAt))]
  {
    var fs := CommentFields(row);
    JoinFieldCount(fs);
    assert (forall i :: 0 <= i < 6 ==> SeparatorFree(fs[i])) <==>
      SeparatorFree(row.user) && SeparatorFree(row.content) by {
      if forall i :: 0 <= i < 6 ==> SeparatorFree(fs[i]) {
        assert SeparatorFree(fs[2]) && SeparatorFree(fs[3]);
      }
    }
    Join(fs)
  }

  // ---------------------------------------------------------------------
  // What a leaf determines
  // ---------------------------------------------------------------------

  /** Two tokenization rows without separators in their free text have the
      same leaf exactly when they agree on every field up to the sub-second
      part of the timestamps. */
  lemma TokenizationLeafInjective(a: TokenizationRow, b: TokenizationRow)
    requires SeparatorFree(a.tokenizerId) && SeparatorFree(a.amount)
    requires SeparatorFree(b.tokenizerId) && SeparatorFree(b.amount)
    ensures TokenizationRecord(a) == TokenizationRecord(b) <==>
      && a.id == b.id && a.oilTokenId == b.oilTokenId
      && a.tokenizerId == b.tokenizerId && a.amount == b.amount
      && Timestamp(a.createdAt) == Timestamp(b.createdAt)
      && Timestamp(a.updatedAt) == Timestamp(b.updatedAt)
  {
    if TokenizationRecord(a) == TokenizationRecord(b) {
      IntToDecimalInjective(a.id, b.id);
      IntToDecimalInjective(a.oilTokenId, b.oilTokenId);
      IntToDecimalInjective(Timestamp(a.createdAt), Timestamp(b.createdAt));
      IntToDecimalInjective(Timestamp(a.updatedAt), Timestamp(b.updatedAt));
    }
  }

  /** Two comment rows without separators in user or content have the same
      leaf exactly when they agree on every field up to the sub-second part
      of the timestamps. */
  lemma CommentLeafInjective(a: CommentRow, b: CommentRow)
    requires SeparatorFree(a.user) && SeparatorFree(a.content)
    requires SeparatorFree(b.user) && SeparatorFree(b.content)
    ensures CommentRecord(a) == CommentRecord(b) <==>
      && a.id == b.id && a.oilTokenId == b.oilTokenId
      && a.user == b.user && a.content == b.content
      && Timestamp(a.createdAt) == Timestamp(b.createdAt)
      && Timestamp(a.updatedAt) == Timestamp(b.updatedAt)
  {
    if CommentRecord(a) == CommentRecord(b) {
      IntToDecimalInjective(a.id, b.id);
      IntToDecimalInjective(a.oilTokenId, b.oilTokenId);
      IntToDecimalInjective(Timestamp(a.createdAt), Timestamp(b.createdAt));
      IntToDecimalInjective(Timestamp(a.updatedAt), Timestamp(b.updatedAt));
    }
  }

  /** Two oil-token rows without separators in their free text have the
      same leaf exactly when their rendered fields agree, and then their
      identifiers, token ids and whole-second timestamps agree. */
  lemma OilTokenLeafInjective(a: OilTokenRow, b: OilTokenRow)
    requires OilTokenTextSeparatorFree(a) && OilTokenTextSeparatorFree(b)
    ensures OilTokenRecord(a) == OilTokenRecord(b) <==> OilTokenFields(a) == OilTokenFields(b)
    ensures OilTokenRecord(a) == OilTokenRecord(b) ==>
      && a.id == b.id && a.tokenId == b.tokenId
      && Timestamp(a.expiryDate) == Timestamp(b.expiryDate)
      && Timestamp(a.createdAt) == Timestamp(b.createdAt)
      && Timestamp(a.updatedAt) == Timestamp(b.updatedAt)
  {
    if OilTokenRecord(a) == OilTokenRecord(b) {
      var fa := OilTokenFields(a);
      var fb := OilTokenFields(b);
      assert fa == fb;
      assert fa[0] == fb[0] && fa[1] == fb[1] && fa[10] == fb[10] && fa[15] == fb[15] && fa[16] == fb[16];
      IntToDecimalInjective(a.id, b.id);
      IntToDecimalInjective(a.tokenId, b.tokenId);
      IntToDecimalInjective(Timestamp(a.expiryDate), Timestamp(b.expiryDate));
      IntToDecimalInjective(Timestamp(a.createdAt), Timestamp(b.createdAt));
      IntToDecimalInjective(Timestamp(a.updatedAt), Timestamp(b.updatedAt));
    }
  }

  /** Without escaping, a leaf cannot tell where the user ends and the
      content begins: moving a separator-delimited tail of the user to the
      front of the content leaves the leaf unchanged. */
  lemma CommentSeparatorShift(a: CommentRow, u: string, v: string)
    requires a.user == u + [Separator] + v
    ensures CommentRecord(a) == CommentRecord(a.(user := u, content := v + [Separator] + a.content))
  {
    var b := a.(user := u, content := v + [Separator] + a.content);
    var i0 := IntToDecimal(a.id);
    var i1 := IntToDecimal(a.oilTokenId);
    var tail := [IntToDecimal(Timestamp(a.createdAt)), IntToDecimal(Timestamp(a.updatedAt))];
    var sep := [Separator];
    var ta := [a.content] + tail;
    var ua := [a.user] + ta;
    var va := [i1] + ua;
    JoinCons(a.content, tail);
    JoinCons(a.user, ta);
    JoinCons(i1, ua);
    JoinCons(i0, va);
    var tb := [b.content] + tail;
    var ub := [u] + tb;
    var vb := [i1] + ub;
    JoinCons(b.content, tail);
    JoinCons(u, tb);
    JoinCons(i1, ub);
    JoinCons(i0, vb);
    assert [i0] + va == [i0, i1, a.user, a.content, tail[0], tail[1]];
    assert [i0] + vb == [i0, i1, u, b.content, tail[0], tail[1]];
  }

  /** Two different comments with the same leaf, whatever their timestamps:
      user `a:b` with content `c`, and user `a` with content `b:c`. */
  lemma CommentLeafCollision(t: NaiveDateTime)
    ensures var a := CommentRow(1, 1, "a:b", "c", t, t);
      var b := CommentRow(1, 1, "a", "b:c", t, t);
      a != b && CommentRecord(a) == CommentRecord(b)
  {
    var a := CommentRow(1, 1, "a:b", "c", t, t);
    assert a.user == "a" + [Separator] + "b";
    assert "b" + [Separator] + "c" == "b:c";
    CommentSeparatorShift(a, "a", "b");
  }

  /** Timestamps enter a leaf in whole seconds: rows that differ only in the
      sub-second part of a timestamp have the same leaf. */
  lemma SubsecondsDoNotReachLeaves(a: TokenizationRow, n: nat, m: nat)
    ensures TokenizationRecord(a) ==
      TokenizationRecord(a.(createdAt := a.createdAt.(nanos := n), updatedAt := a.updatedAt.(nanos := m)))
  {
  }

  // ---------------------------------------------------------------------
  // Leaves of a table
  // ---------------------------------------------------------------------

  /** The leaf loop of every encoder: one leaf per row, pushed in row
      order. */
  function EncodeRows<R>(rows: seq<R>, encode: R -> string): (leaves: seq<string>)
    ensures |leaves| == |rows|
    ensures forall i :: 0 <= i < |rows| ==> leaves[i] == encode(rows[i])
  {
    if rows == [] then [] else EncodeRows(rows[..|rows| - 1], encode) + [encode(rows[|rows| - 1])]
  }
}
