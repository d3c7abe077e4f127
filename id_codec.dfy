/** The text form of an id list that the order and menu screens let the user edit:
    `ids.join(', ')` to show it, and `text.split(',').map(id => parseInt(id.trim(), 10))` to read it back. */
module IdCodec {
  import opened Wrappers
  import opened Text

  /** A JavaScript number as it occurs in an id list: an integer, or the NaN that `parseInt` returns
      for text without a leading number. */
  datatype JsInt = Int(value: int) | NaN

  /** `String(x)`, which `Array.prototype.join` applies to every element. */
  function NumberToString(x: JsInt): (s: string)
    ensures |s| >= 1 && !IsJsWhiteSpace(s[0]) && !IsJsWhiteSpace(s[|s| - 1])
    ensures ',' !in s
  {
    match x
    case NaN => "NaN"
    case Int(n) => IntToString(n)
  }

  /** `String.prototype.split(sep)` for a one-character separator: the pieces between separators,
      empty pieces included, so that `n` separators give `n + 1` pieces. */
  function Split(s: string, sep: char): (pieces: seq<string>)
    ensures |pieces| >= 1
    ensures forall i :: 0 <= i < |pieces| ==> sep !in pieces[i]
    decreases |s|
  {
    if s == [] then [""]
    else if s[0] == sep then [""] + Split(s[1..], sep)
    else
      var rest := Split(s[1..], sep);
      [[s[0]] + rest[0]] + rest[1..]
  }

  function TrimStart(s: string): (t: string)
    ensures |t| <= |s| && t == s[|s| - |t|..]
    ensures t == [] || !IsJsWhiteSpace(t[0])
    decreases |s|
  {
    if s != [] && IsJsWhiteSpace(s[0]) then TrimStart(s[1..]) else s
  }

  function TrimEnd(s: string): (t: string)
    ensures |t| <= |s| && t == s[..|t|]
    ensures t == [] || !IsJsWhiteSpace(t[|t| - 1])
    decreases |s|
  {
    if s != [] && IsJsWhiteSpace(s[|s| - 1]) then TrimEnd(s[..|s| - 1]) else s
  }

  /** `String.prototype.trim`. */
  function Trim(s: string): string {
    TrimEnd(TrimStart(s))
  }

  /** The longest prefix of `s` made of decimal digits. */
  function LeadingDigits(s: string): (d: string)
    ensures AllDigits(d) && d <= s
    ensures |d| < |s| ==> !IsDigit(s[|d|])
    decreases |s|
  {
    if s != [] && IsDigit(s[0]) then [s[0]] + LeadingDigits(s[1..]) else []
  }

  /** `parseInt(s, 10)`: skip leading white space, read an optional sign, then the longest run of
      digits; NaN when there is no digit. Whatever follows the digits is ignored. */
  function ParseInt(s: string): JsInt {
    var t := TrimStart(s);
    var negative := t != [] && t[0] == '-';
    var unsigned := if t != [] && (t[0] == '-' || t[0] == '+') then t[1..] else t;
    var digits := LeadingDigits(unsigned);
    if digits == [] then NaN
    else if negative then Int(-(DigitsToNat(digits) as int))
    else Int(DigitsToNat(digits))
  }

  function NumbersToStrings(ids: seq<JsInt>): (parts: seq<string>)
    ensures |parts| == |ids|
    ensures forall i :: 0 <= i < |ids| ==> parts[i] == NumberToString(ids[i])
  {
    if ids == [] then [] else [NumberToString(ids[0])] + NumbersToStrings(ids[1..])
  }

  /** `ids.join(', ')`: how an id list is shown in the edit form. */
  function JoinIds(ids: seq<JsInt>): string {
    Join(NumbersToStrings(ids), ", ")
  }

  /** `parseInt(piece.trim(), 10)` for each piece. */
  function ParsePieces(pieces: seq<string>): (ids: seq<JsInt>)
    ensures |ids| == |pieces|
    ensures forall i :: 0 <= i < |pieces| ==> ids[i] == ParseInt(Trim(pieces[i]))
  {
    if pieces == [] then [] else [ParseInt(Trim(pieces[0]))] + ParsePieces(pieces[1..])
  }

  /** `text.split(',').map(id => parseInt(id.trim(), 10))`. */
  function ParseIds(text: string): seq<JsInt> {
    ParsePieces(Split(text, ','))
  }

  /** The id list a form submits: `[]` when the text field is missing or empty (both are falsy in
      JavaScript), the parsed text otherwise. */
  function SubmittedIds(field: Option<string>): (ids: seq<JsInt>)
    ensures field == None || field == Some("") ==> ids == []
    ensures field.Some? && field.value != "" ==> |ids| == |Split(field.value, ',')|
  {
    if field == None || field == Some("") then [] else ParseIds(field.value)
  }

  // ---------------------------------------------------------------------------------------------
  // Split and Join with the same one-character separator are inverse to each other.

  lemma {:induction false} SplitPieceThenSep(p: string, sep: char, t: string)
    requires sep !in p
    ensures Split(p + [sep] + t, sep) == [p] + Split(t, sep)
    decreases |p|
  {
    if p == [] {
      assert p + [sep] + t == [sep] + t;
      assert ([sep] + t)[1..] == t;
    } else {
      SplitPieceThenSep(p[1..], sep, t);
      assert (p + [sep] + t)[1..] == p[1..] + [sep] + t;
      assert [p[0]] + p[1..] == p;
    }
  }

  lemma {:induction false} SplitPiece(p: string, sep: char)
    requires sep !in p
    ensures Split(p, sep) == [p]
    decreases |p|
  {
    if p != [] {
      SplitPiece(p[1..], sep);
      assert [p[0]] + p[1..] == p;
    }
  }

  /** Splitting a joined list gives the list back, provided no piece contains the separator. */
  lemma {:induction false} SplitJoin(parts: seq<string>, sep: char)
    requires |parts| >= 1
    requires forall i :: 0 <= i < |parts| ==> sep !in parts[i]
    ensures Split(Join(parts, [sep]), sep) == parts
    decreases |parts|
  {
    if |parts| == 1 {
      SplitPiece(parts[0], sep);
    } else {
      SplitJoin(parts[1..], sep);
      SplitPieceThenSep(parts[0], sep, Join(parts[1..], [sep]));
      assert [parts[0]] + parts[1..] == parts;
    }
  }

  /** Joining the pieces of a split gives the text back. */
  lemma {:induction false} JoinSplit(s: string, sep: char)
    ensures Join(Split(s, sep), [sep]) == s
    decreases |s|
  {
    if s != [] {
      JoinSplit(s[1..], sep);
      var rest := Split(s[1..], sep);
      if s[0] == sep {
        assert ([""] + rest)[1..] == rest;
      } else {
        if |rest| > 1 {
          assert ([[s[0]] + rest[0]] + rest[1..])[1..] == rest[1..];
        }
        assert [s[0]] + s[1..] == s;
      }
    }
  }

  // ---------------------------------------------------------------------------------------------
  // parseInt reads back what String() printed.

  lemma {:induction false} LeadingDigitsOfDigits(s: string)
    requires AllDigits(s)
    ensures LeadingDigits(s) == s
    decreases |s|
  {
    if s != [] {
      LeadingDigitsOfDigits(s[1..]);
      assert [s[0]] + s[1..] == s;
    }
  }

  lemma {:induction false} TrimStartOfUnpadded(s: string)
    requires s == [] || !IsJsWhiteSpace(s[0])
    ensures TrimStart(s) == s
  {
  }

  lemma {:induction false} ParseIntOfDigits(s: string, negative: bool)
    requires s != [] && AllDigits(s)
    ensures ParseInt(if negative then "-" + s else s)
         == Int(if negative then -(DigitsToNat(s) as int) else DigitsToNat(s))
  {
    var t := if negative then "-" + s else s;
    assert IsDigit(s[0]);
    TrimStartOfUnpadded(t);
    LeadingDigitsOfDigits(s);
    if negative {
      assert t[0] == '-' && t[1..] == s;
    } else {
      assert t[0] != '-' && t[0] != '+';
    }
  }

  lemma {:induction false} ParseIntOfIntToString(n: int)
    ensures ParseInt(IntToString(n)) == Int(n)
  {
    var m: nat := if n < 0 then -n else n;
    DigitsToNatOfNatToString(m);
    ParseIntOfDigits(NatToString(m), n < 0);
  }

  lemma {:induction false} ParseIntOfNumberToString(x: JsInt)
    ensures ParseInt(NumberToString(x)) == x
  {
    if x.NaN? {
      TrimStartOfUnpadded("NaN");
      assert LeadingDigits("NaN") == [];
    } else {
      ParseIntOfIntToString(x.value);
    }
  }

  lemma {:induction false} TrimOfPaddedNumber(x: JsInt, pad: string)
    requires pad == "" || pad == " "
    ensures Trim(pad + NumberToString(x)) == NumberToString(x)
  {
    var s := NumberToString(x);
    assert TrimStart(pad + s) == s by {
      if pad == " " {
        assert (pad + s)[1..] == s;
      }
    }
  }

  // ---------------------------------------------------------------------------------------------
  // The form's round trip.

  /** The pieces that splitting `ids.join(', ')` on ',' produces: every piece after the first
      keeps the space that followed the comma. */
  function Padded(parts: seq<string>): (r: seq<string>)
    requires |parts| >= 1
    ensures |r| == |parts| && r[0] == parts[0] && r[1..] == PadAll(parts[1..])
  {
    [parts[0]] + PadAll(parts[1..])
  }

  function PadAll(parts: seq<string>): (r: seq<string>)
    ensures |r| == |parts|
    ensures forall i :: 0 <= i < |parts| ==> r[i] == " " + parts[i]
  {
    if parts == [] then [] else [" " + parts[0]] + PadAll(parts[1..])
  }

  lemma {:induction false} JoinPadAll(parts: seq<string>)
    requires |parts| >= 1
    ensures " " + Join(parts, ", ") == Join(PadAll(parts), ",")
    decreases |parts|
  {
    if |parts| > 1 {
      JoinPadAll(parts[1..]);
      assert PadAll(parts)[1..] == PadAll(parts[1..]);
    }
  }

  lemma {:induction false} JoinCommaSpace(parts: seq<string>)
    requires |parts| >= 1
    ensures Join(parts, ", ") == Join(Padded(parts), ",")
  {
    if |parts| > 1 {
      var rest := Join(parts[1..], ", ");
      var padded := Padded(parts);
      JoinPadAll(parts[1..]);
      assert padded[1..] == PadAll(parts[1..]);
      assert Join(padded[1..], ",") == " " + rest;
      assert Join(padded, ",") == padded[0] + "," + Join(padded[1..], ",");
      assert Join(parts, ", ") == parts[0] + ", " + rest;
      assert parts[0] + ", " + rest == parts[0] + "," + (" " + rest);
    }
  }

  lemma {:induction false} ParsePaddedPieces(ids: seq<JsInt>)
    requires ids != []
    ensures ParsePieces(Padded(NumbersToStrings(ids))) == ids
  {
    var pieces := Padded(NumbersToStrings(ids));
    var parsed := ParsePieces(pieces);
    forall i | 0 <= i < |ids| ensures parsed[i] == ids[i] {
      var pad := if i == 0 then "" else " ";
      if i > 0 {
        assert pieces[i] == pieces[1..][i - 1];
      }
      assert pieces[i] == pad + NumberToString(ids[i]);
      TrimOfPaddedNumber(ids[i], pad);
      ParseIntOfNumberToString(ids[i]);
    }
    assert parsed == ids;
  }

  /** The edit form's round trip: an id list shown with `join(', ')` and submitted unchanged is
      read back as the same list, for every list, the empty one and lists holding NaN included. */
  lemma {:induction false} SubmitShownIds(ids: seq<JsInt>)
    ensures SubmittedIds(Some(JoinIds(ids))) == ids
  {
    if ids != [] {
      var parts := NumbersToStrings(ids);
      var pieces := Padded(parts);
      assert forall i :: 0 <= i < |pieces| ==> ',' !in pieces[i];
      JoinCommaSpace(parts);
      SplitJoin(pieces, ',');
      assert JoinIds(ids) != "" by {
        assert |pieces[0]| >= 1;
      }
      ParsePaddedPieces(ids);
    }
  }
}
