/**
 * The narration classifier of `NotesExtractor`: a UPI narration
 * `UPI/<f1>/<f2>/<f3>/<f4>...` is labelled with its field `f4`, trimmed;
 * anything else is labelled "Unknown".
 *
 * The source uses the anchored regular expression
 * `^UPI/[^/]+/[^/]+/[^/]+/([^/]+)` with `Matcher.find`; here the match is
 * computed by walking '/'-separated fields, and the two lemmas
 * `MatchComplete` and `MatchSound` show that it accepts exactly the
 * strings the expression describes and captures the same group.
 */
module NotesExtractor {
  import opened Wrappers
  import opened JavaText

  const UpiMarker: string := "UPI/"
  const UnknownLabel: string := "Unknown"

  /** What `[^/]*` matches: a run of code units other than '/'. */
  predicate NoSeparator(f: string) {
    forall k :: 0 <= k < |f| ==> f[k] != '/'
  }

  /** What `[^/]+` matches: a non-empty run without '/'. */
  predicate IsField(f: string) {
    f != [] && NoSeparator(f)
  }

  /** The maximal run of non-'/' code units at the start of `s`. */
  function Segment(s: string): (seg: string)
    ensures |seg| <= |s| && seg == s[..|seg|]
    ensures NoSeparator(seg)
    ensures |seg| < |s| ==> s[|seg|] == '/'
  {
    if s == [] || s[0] == '/' then [] else [s[0]] + Segment(s[1..])
  }

  /**
   * Consumes `n` fields, each non-empty and followed by '/', and yields
   * what follows the last of those separators.
   */
  function SkipFields(s: string, n: nat): (rest: Option<string>)
  {
    if n == 0 then Some(s)
    else
      var f := Segment(s);
      if f == [] || |f| == |s| then None else SkipFields(s[|f| + 1..], n - 1)
  }

  /** The capturing group of the UPI pattern, if the narration matches. */
  function Match(txn: string): (g: Option<string>)
    ensures g.Some? ==> IsField(g.value)
  {
    if StartsWith(txn, UpiMarker) then MatchFields(txn[|UpiMarker|..]) else None
  }

  /** The pattern after its marker: three fields, each followed by '/', then the captured one. */
  function MatchFields(s: string): (g: Option<string>)
    ensures g.Some? ==> IsField(g.value)
  {
    match SkipFields(s, 3)
    case None => None
    case Some(rest) =>
      var g := Segment(rest);
      if g == [] then None else Some(g)
  }

  /** The category label of one narration. */
  function Classify(txn: string): (note: string)
    ensures Match(txn).None? ==> note == UnknownLabel
    ensures Match(txn).Some? ==> '/' !in note && IsTrimmed(note)
  {
    match Match(txn)
    case Some(g) => Trim(g)
    case None => UnknownLabel
  }

  /** The labels of the first `n` narrations, in order. */
  function Labels(transactions: seq<string>, n: nat): (notes: seq<string>)
    requires n <= |transactions|
    ensures |notes| == n
  {
    if n == 0 then [] else Labels(transactions, n - 1) + [Classify(transactions[n - 1])]
  }

  /** Label `k` is the label of narration `k`. */
  lemma {:induction false} LabelAt(transactions: seq<string>, n: nat, k: nat)
    requires k < n <= |transactions|
    ensures Labels(transactions, n)[k] == Classify(transactions[k])
  {
    if k < n - 1 {
      LabelAt(transactions, n - 1, k);
      assert Labels(transactions, n)[k] == Labels(transactions, n - 1)[k];
    }
  }

  /**
   * `getNotesFromTransactionsRorTMB`: one label per narration, in order,
   * each depending only on the narration at the same position.
   */
  method GetNotesFromTransactions(transactions: seq<string>) returns (notes: seq<string>)
    ensures |notes| == |transactions|
    ensures forall i :: 0 <= i < |transactions| ==> notes[i] == Classify(transactions[i])
  {
    notes := [];
    for i := 0 to |transactions|
      invariant notes == Labels(transactions, i)
    {
      var txn := transactions[i];
      var note: string;
      match Match(txn) {
        case Some(g) =>
          note := Trim(g);
        case None =>
          note := UnknownLabel;
      }
      assert note == Classify(txn);
      notes := notes + [note];
    }
    forall k | 0 <= k < |transactions|
      ensures notes[k] == Classify(transactions[k])
    {
      LabelAt(transactions, |transactions|, k);
    }
  }

  /** A string is its leading segment followed by the rest. */
  lemma SegmentSplit(s: string)
    ensures s == Segment(s) + s[|Segment(s)|..]
  {
    var g := Segment(s);
    assert s == s[..|g|] + s[|g|..];
  }

  /** A field followed by a separator (or by nothing) is what `Segment` takes. */
  lemma {:induction false} SegmentOfField(f: string, tail: string)
    requires NoSeparator(f)
    requires tail == [] || tail[0] == '/'
    ensures Segment(f + tail) == f
  {
    if f != [] {
      assert (f + tail)[1..] == f[1..] + tail;
      SegmentOfField(f[1..], tail);
    }
  }

  /** Consuming a leading field and its separator leaves what follows. */
  lemma SkipLeadingField(f: string, rest: string, n: nat)
    requires IsField(f)
    ensures SkipFields(f + "/" + rest, n + 1) == SkipFields(rest, n)
  {
    var s := f + "/" + rest;
    assert s == f + ("/" + rest);
    SegmentOfField(f, "/" + rest);
    assert s[|f| + 1..] == rest;
  }

  /** A successful skip starts with a field and a separator. */
  lemma SkipFieldsStep(s: string, n: nat) returns (f: string, rest: string)
    requires SkipFields(s, n + 1).Some?
    ensures IsField(f) && s == f + "/" + rest
    ensures SkipFields(rest, n) == SkipFields(s, n + 1)
  {
    f := Segment(s);
    rest := s[|f| + 1..];
    assert s == f + [s[|f|]] + rest;
  }

  /** A narration of the shape the pattern describes, from its fields. */
  function UpiNarration(a: string, b: string, c: string, g: string, tail: string): string {
    UpiMarker + a + "/" + b + "/" + c + "/" + g + tail
  }

  /** The same narration, grouped field by field from the right. */
  lemma UpiNarrationNested(a: string, b: string, c: string, g: string, tail: string)
    ensures UpiNarration(a, b, c, g, tail)
         == UpiMarker + (a + "/" + (b + "/" + (c + "/" + (g + tail))))
  {
  }

  /**
   * Every string of the shape the pattern describes is matched, and the
   * capture is its fourth field after the marker.
   */
  lemma MatchComplete(a: string, b: string, c: string, g: string, tail: string)
    requires IsField(a) && IsField(b) && IsField(c) && IsField(g)
    requires tail == [] || tail[0] == '/'
    ensures Match(UpiNarration(a, b, c, g, tail)) == Some(g)
  {
    var s3 := g + tail;
    var s2 := c + "/" + s3;
    var s1 := b + "/" + s2;
    var s0 := a + "/" + s1;
    var txn := UpiMarker + s0;
    UpiNarrationNested(a, b, c, g, tail);
    assert txn[..|UpiMarker|] == UpiMarker && txn[|UpiMarker|..] == s0;
    SkipLeadingField(a, s1, 2);
    SkipLeadingField(b, s2, 1);
    SkipLeadingField(c, s3, 0);
    SegmentOfField(g, tail);
  }

  /**
   * Every match has the shape the pattern describes: the narration splits
   * into the marker, three fields, the captured field and a tail that is
   * empty or starts at a separator.
   */
  lemma MatchSound(txn: string) returns (a: string, b: string, c: string, tail: string)
    requires Match(txn).Some?
    ensures IsField(a) && IsField(b) && IsField(c)
    ensures tail == [] || tail[0] == '/'
    ensures txn == UpiNarration(a, b, c, Match(txn).value, tail)
  {
    var s0 := txn[|UpiMarker|..];
    assert txn == UpiMarker + s0;
    var g := MatchFields(s0).value;
    a, b, c, tail := MatchFieldsSound(s0);
    UpiNarrationNested(a, b, c, g, tail);
  }

  /** `MatchSound` for the part after the marker. */
  lemma MatchFieldsSound(s0: string) returns (a: string, b: string, c: string, tail: string)
    requires MatchFields(s0).Some?
    ensures IsField(a) && IsField(b) && IsField(c)
    ensures tail == [] || tail[0] == '/'
    ensures s0 == a + "/" + (b + "/" + (c + "/" + (MatchFields(s0).value + tail)))
  {
    var s1, s2, s3;
    a, s1 := SkipFieldsStep(s0, 2);
    b, s2 := SkipFieldsStep(s1, 1);
    c, s3 := SkipFieldsStep(s2, 0);
    tail := CapturedSplit(s0, s3);
  }

  /** The captured field and the tail after it, once three fields are skipped. */
  lemma CapturedSplit(s0: string, s3: string) returns (tail: string)
    requires SkipFields(s0, 3) == Some(s3)
    requires MatchFields(s0).Some?
    ensures tail == [] || tail[0] == '/'
    ensures s3 == MatchFields(s0).value + tail
  {
    var g := Segment(s3);
    tail := s3[|g|..];
    SegmentSplit(s3);
  }

  /**
   * The classifier's example: "UPI/123456/John Doe/ICIC/Coffee Shop/ref1"
   * is labelled "Coffee Shop", the trailing reference being ignored.
   */
  lemma ClassifyUpiExample()
    ensures Classify(UpiNarration("123456", "John Doe", "ICIC", "Coffee Shop", "/ref1")) == "Coffee Shop"
  {
    MatchComplete("123456", "John Doe", "ICIC", "Coffee Shop", "/ref1");
    TrimOfTrimmed("Coffee Shop");
  }

  /** A narration of another payment rail, and a UPI narration with an empty field. */
  lemma ClassifyFallbackExamples()
    ensures Classify("NEFT/XYZ") == UnknownLabel
    ensures Classify("UPI//a/b/c") == UnknownLabel
  {
    assert "NEFT/XYZ"[..|UpiMarker|][0] == 'N';
    var s0 := "UPI//a/b/c"[|UpiMarker|..];
    assert s0[0] == '/';
  }
}
