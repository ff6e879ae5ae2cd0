/** The configured Gmail accounts, read from a comma-separated setting. */
module Accounts {
  import Text
  import Seqs

  /** The file-backed server keeps the raw pieces of the split, empty ones
      included; its loops skip the empty entries. */
  function RawAccounts(setting: string): (r: seq<string>)
    ensures |r| >= 1
    ensures forall a :: a in r ==> ',' !in a
    ensures Text.Join(r, ',') == setting
  {
    Text.JoinSplit(setting, ',');
    Text.Split(setting, ',')
  }

  /** One piece's contribution: its strip, unless that is empty. */
  function Entry(p: string): (r: seq<string>)
    ensures |r| <= 1
    ensures forall a :: a in r ==> a != "" && Text.Stripped(a)
    ensures ',' !in p ==> forall a :: a in r ==> ',' !in a
  {
    var e := Text.Strip(p);
    if e != "" then [e] else []
  }

  /** The stripped, non-empty entries of a list of pieces, in order. */
  function StrippedNonEmpty(parts: seq<string>): (r: seq<string>)
    ensures |r| <= |parts|
    ensures forall a :: a in r ==> a != "" && Text.Stripped(a)
    ensures (forall p :: p in parts ==> ',' !in p) ==> forall a :: a in r ==> ',' !in a
  {
    if |parts| == 0 then []
    else
      assert parts[0] in parts;
      Entry(parts[0]) + StrippedNonEmpty(parts[1..])
  }

  /** The serverless variant keeps the stripped, non-empty pieces. */
  function ParsedAccounts(setting: string): (r: seq<string>)
    ensures forall a :: a in r ==> a != "" && ',' !in a && Text.Stripped(a)
  {
    StrippedNonEmpty(Text.Split(setting, ','))
  }

  /** The entries of a one-piece list: the piece's strip, unless that is
      empty. */
  lemma StrippedNonEmptyOne(p: string)
    ensures StrippedNonEmpty([p]) == if Text.Strip(p) == "" then [] else [Text.Strip(p)]
  {
    assert [p][1..] == [];
  }

  /** The entries of a concatenation are the entries of each part, in order;
      with `StrippedNonEmptyOne` this gives, for every list, exactly the
      non-empty strips of its pieces in the pieces' order. */
  lemma {:induction false} StrippedNonEmptyConcat(a: seq<string>, b: seq<string>)
    ensures StrippedNonEmpty(a + b) == StrippedNonEmpty(a) + StrippedNonEmpty(b)
  {
    if |a| == 0 {
      assert a + b == b;
    } else {
      var ab := a + b;
      assert ab[0] == a[0];
      assert ab[1..] == a[1..] + b;
      StrippedNonEmptyConcat(a[1..], b);
    }
  }

  /** For every setting written as comma-free pieces, the parsed accounts are
      the non-empty strips of those pieces. */
  lemma ParsedAccountsOfPieces(parts: seq<string>)
    requires |parts| >= 1
    requires forall p :: p in parts ==> ',' !in p
    ensures ParsedAccounts(Text.Join(parts, ',')) == StrippedNonEmpty(parts)
  {
    Text.SplitJoin(parts, ',');
  }

  /** The serverless accounts are the non-empty strips of the file-backed
      server's raw pieces. */
  lemma ParsedFromRaw(setting: string)
    ensures ParsedAccounts(setting) == StrippedNonEmpty(RawAccounts(setting))
  {
  }

  /** White space around an entry is dropped and a blank entry is skipped:
      `" x , ,y"` gives `[x, y]`. */
  lemma ParsedAccountsPaddedAndBlank(x: string, y: string)
    requires x != "" && Text.Stripped(x) && ',' !in x
    requires y != "" && Text.Stripped(y) && ',' !in y
    ensures ParsedAccounts(" " + x + " , ," + y) == [x, y]
  {
    var px := " " + x + " ";
    JoinPaddedAndBlank(x, y);
    assert ',' !in px;
    ParsedAccountsOfPieces([px, " ", y]);
    PiecesPaddedAndBlank(x, y);
  }

  lemma PiecesPaddedAndBlank(x: string, y: string)
    requires x != "" && Text.Stripped(x)
    requires y != "" && Text.Stripped(y)
    ensures StrippedNonEmpty([" " + x + " ", " ", y]) == [x, y]
  {
    var parts := [" " + x + " ", " ", y];
    EntryPadded(x);
    EntryBlank();
    EntryClean(y);
    assert parts[1..] == [" ", y];
    assert [" ", y][1..] == [y];
    assert [y][1..] == [];
    assert StrippedNonEmpty([y]) == [y];
    assert StrippedNonEmpty([" ", y]) == [y];
    assert StrippedNonEmpty(parts) == [x] + [y];
  }

  lemma JoinPaddedAndBlank(x: string, y: string)
    ensures Text.Join([" " + x + " ", " ", y], ',') == " " + x + " , ," + y
  {
    var parts := [" " + x + " ", " ", y];
    assert parts[1..][1..] == [y];
    assert Text.Join(parts[1..], ',') == " " + [','] + y;
  }

  lemma EntryPadded(x: string)
    requires x != "" && Text.Stripped(x)
    ensures Entry(" " + x + " ") == [x]
  {
    Text.StripOf(" ", x, " ");
  }

  lemma EntryBlank()
    ensures Entry(" ") == []
  {
    Text.StripOf(" ", "", "");
    assert " " + "" + "" == " ";
  }

  lemma EntryClean(y: string)
    requires y != "" && Text.Stripped(y)
    ensures Entry(y) == [y]
  {
    Text.StripNoSpace(y);
  }

  /** Pieces that are already stripped and non-empty are kept as they are. */
  lemma {:induction false} StrippedNonEmptyKeeps(parts: seq<string>)
    requires forall a :: a in parts ==> a != "" && Text.Stripped(a)
    ensures StrippedNonEmpty(parts) == parts
  {
    if |parts| > 0 {
      assert forall a :: a in parts[1..] ==> a in parts;
      StrippedNonEmptyKeeps(parts[1..]);
      assert parts[0] in parts;
      Text.StripNoSpace(parts[0]);
      assert parts == [parts[0]] + parts[1..];
    }
  }

  /** Writing a list of clean account names into the setting and parsing it
      gives the list back. */
  lemma ParsedAccountsRoundTrip(accounts: seq<string>)
    requires forall a :: a in accounts ==> a != "" && ',' !in a && Text.Stripped(a)
    ensures ParsedAccounts(Text.Join(accounts, ',')) == accounts
  {
    if |accounts| == 0 {
      assert Text.Split("", ',') == [""];
      assert Text.Strip("") == "";
    } else {
      Text.SplitJoin(accounts, ',');
      StrippedNonEmptyKeeps(accounts);
    }
  }

  lemma {:induction false} CleanPiecesFilter(parts: seq<string>)
    requires forall p :: p in parts ==> Text.Stripped(p)
    ensures Seqs.Filter(parts, (a: string) => a != "") == StrippedNonEmpty(parts)
  {
    if |parts| > 0 {
      assert forall p :: p in parts[1..] ==> p in parts;
      CleanPiecesFilter(parts[1..]);
      assert parts[0] in parts;
      Text.StripNoSpace(parts[0]);
    }
  }

  /** When no entry of the setting carries surrounding white space, both
      variants visit the same accounts in the same order. */
  lemma SameAccountsWhenClean(setting: string)
    requires forall p :: p in RawAccounts(setting) ==> Text.Stripped(p)
    ensures Seqs.Filter(RawAccounts(setting), (a: string) => a != "") == ParsedAccounts(setting)
  {
    CleanPiecesFilter(RawAccounts(setting));
  }
}
