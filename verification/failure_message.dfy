/** The message of the `ConstraintViolationException` raised on a rejected
    request: `Validation failed. Details: ` followed by one `[path: message]`
    per violation, separated by `, `, and a final `.`.  `DecodeMessage` reads
    such a message back, which shows that it lists each violation in full. */
module FailureMessage {
  import opened Wrappers
  import opened Domain

  const Prefix: string := "Validation failed. Details: "
  const Separator: string := ", "
  const Suffix: string := "."

  /** What the message shows of a violation: its property and its text. */
  datatype Detail = Detail(field: Field, message: string)

  /** The details of `vs`, in order. */
  function Details(vs: seq<Violation>): (ds: seq<Detail>)
    ensures |ds| == |vs|
    ensures forall i :: 0 <= i < |vs| ==> ds[i].field == vs[i].Property() && ds[i].message == vs[i].Message()
  {
    seq(|vs|, i requires 0 <= i < |vs| => Detail(vs[i].Property(), vs[i].Message()))
  }

  /** `String.format("[%s: %s]", violation.getPropertyPath(), violation.getMessage())` */
  function Render(d: Detail): (r: string)
    ensures |r| == |PropertyPath(d.field)| + |d.message| + 4
    ensures r[0] == '[' && r[|r| - 1] == ']'
  {
    "[" + PropertyPath(d.field) + ": " + d.message + "]"
  }

  /** `Collectors.joining(", ")` over the rendered violations, in stream order. */
  function JoinRendered(ds: seq<Detail>): (r: string)
    requires |ds| > 0
    ensures |r| > 0 && r[0] == '[' && r[|r| - 1] == ']'
  {
    if |ds| == 1 then Render(ds[0]) else Render(ds[0]) + Separator + JoinRendered(ds[1..])
  }

  /** `Collectors.joining(", ", prefix, ".")`; only reached with at least one violation. */
  function Message(ds: seq<Detail>): (r: string)
    requires |ds| > 0
    ensures |r| > |Prefix| + 1 && r[|Prefix|] == '[' && r[|r| - 1] == '.'
  {
    Prefix + JoinRendered(ds) + Suffix
  }

  /** A detail can be read back when its text holds no `]`. */
  predicate Readable(d: Detail) {
    ']' !in d.message
  }

  /** Index of the first `c` in `s`, or `|s|` when there is none. */
  function FindChar(s: string, c: char): (i: nat)
    ensures i <= |s|
    ensures forall k :: 0 <= k < i ==> s[k] != c
    ensures i < |s| ==> s[i] == c
  {
    if |s| == 0 then 0 else if s[0] == c then 0 else 1 + FindChar(s[1..], c)
  }

  function FieldOfPath(p: string): Option<Field> {
    if p == "symbol" then Some(Symbol)
    else if p == "companyName" then Some(CompanyName)
    else if p == "price" then Some(Price)
    else None
  }

  /** Reads `path: message` into a detail. */
  function DecodeDetail(item: string): Option<Detail> {
    var colon := FindChar(item, ':');
    if colon + 1 >= |item| || item[colon + 1] != ' ' then None
    else match FieldOfPath(item[..colon])
      case None => None
      case Some(f) => Some(Detail(f, item[colon + 2..]))
  }

  /** Reads one `[path: message]` off the front of `s` and returns the rest. */
  function DecodeItem(s: string): (r: Option<(Detail, string)>)
    ensures r.Some? ==> |r.value.1| < |s|
  {
    if |s| == 0 || s[0] != '[' then None
    else
      var body := s[1..];
      var close := FindChar(body, ']');
      if close == |body| then None
      else match DecodeDetail(body[..close])
        case None => None
        case Some(d) => Some((d, body[close + 1..]))
  }

  /** Reads a non-empty `, `-separated list of items that fills `s`. */
  function DecodeList(s: string): Option<seq<Detail>>
    decreases |s|
  {
    match DecodeItem(s)
    case None => None
    case Some((d, rest)) =>
      if rest == "" then Some([d])
      else if |rest| >= |Separator| && rest[..|Separator|] == Separator then
        match DecodeList(rest[|Separator|..])
        case None => None
        case Some(ds) => Some([d] + ds)
      else None
  }

  function DecodeMessage(m: string): Option<seq<Detail>> {
    if |m| > |Prefix| && m[..|Prefix|] == Prefix && m[|m| - 1..] == Suffix then DecodeList(m[|Prefix|..|m| - 1])
    else None
  }

  lemma FindCharAt(a: string, c: char, b: string)
    requires c !in a
    ensures FindChar(a + [c] + b, c) == |a|
  {
    assert (a + [c] + b)[|a|] == c;
  }

  lemma NoCloseInConcat(a: string, b: string)
    requires ']' !in a && ']' !in b
    ensures ']' !in a + b
  {
  }

  /** No path holds `]` or `:`, and each path reads back as its property. */
  lemma PathIsReadable(f: Field)
    ensures ']' !in PropertyPath(f) && ':' !in PropertyPath(f)
    ensures FieldOfPath(PropertyPath(f)) == Some(f)
  {
  }

  /** `path: message` reads back as its detail. */
  lemma DecodeDetailOf(f: Field, p: string, m: string)
    requires ':' !in p && FieldOfPath(p) == Some(f)
    ensures DecodeDetail(p + ": " + m) == Some(Detail(f, m))
  {
    var item := p + ": " + m;
    assert item == p + [':'] + (" " + m);
    FindCharAt(p, ':', " " + m);
    assert item[..|p|] == p;
    assert item[|p| + 2..] == m;
  }

  /** One rendered detail reads back as itself, leaving what follows it. */
  lemma DecodeRenderedItem(d: Detail, rest: string)
    requires Readable(d)
    ensures DecodeItem(Render(d) + rest) == Some((d, rest))
  {
    var p, m := PropertyPath(d.field), d.message;
    PathIsReadable(d.field);
    var item := p + ": " + m;
    NoCloseInConcat(p, ": ");
    NoCloseInConcat(p + ": ", m);
    var body := (Render(d) + rest)[1..];
    assert body == item + [']'] + rest;
    FindCharAt(item, ']', rest);
    assert body[..|item|] == item;
    assert body[|item| + 1..] == rest;
    DecodeDetailOf(d.field, p, m);
  }

  /** A last item: the list ends after it. */
  lemma DecodeLastItem(d: Detail)
    requires Readable(d)
    ensures DecodeList(Render(d)) == Some([d])
  {
    DecodeRenderedItem(d, "");
    assert Render(d) + "" == Render(d);
  }

  /** An item followed by a separator: the list goes on with what follows. */
  lemma DecodeItemThenMore(d: Detail, tail: string)
    requires Readable(d)
    requires DecodeList(tail).Some?
    ensures DecodeList(Render(d) + (Separator + tail)) == Some([d] + DecodeList(tail).value)
  {
    var rest := Separator + tail;
    DecodeRenderedItem(d, rest);
    assert rest[..|Separator|] == Separator;
    assert rest[|Separator|..] == tail;
  }

  lemma JoinRenderedCons(ds: seq<Detail>)
    requires |ds| > 1
    ensures JoinRendered(ds) == Render(ds[0]) + (Separator + JoinRendered(ds[1..]))
  {
  }

  /** The joined list reads back as the details it was made from, in order. */
  lemma {:induction false} DecodeJoined(ds: seq<Detail>)
    requires |ds| > 0
    requires forall i :: 0 <= i < |ds| ==> Readable(ds[i])
    ensures DecodeList(JoinRendered(ds)) == Some(ds)
    decreases |ds|
  {
    if |ds| == 1 {
      DecodeLastItem(ds[0]);
      assert ds == [ds[0]];
    } else {
      JoinRenderedCons(ds);
      DecodeJoined(ds[1..]);
      DecodeItemThenMore(ds[0], JoinRendered(ds[1..]));
      assert ds == [ds[0]] + ds[1..];
    }
  }

  /** Round trip: the failure message lists exactly the given details,
      once per occurrence, in full and in order. */
  lemma DecodeMessageRoundTrip(ds: seq<Detail>)
    requires |ds| > 0
    requires forall i :: 0 <= i < |ds| ==> Readable(ds[i])
    ensures DecodeMessage(Message(ds)) == Some(ds)
  {
    var m := Message(ds);
    var j := JoinRendered(ds);
    assert m[..|Prefix|] == Prefix;
    assert m[|m| - 1..] == Suffix;
    assert m[|Prefix|..|m| - 1] == j;
    DecodeJoined(ds);
  }

  // One lemma per long message keeps each character scan small.
  lemma SymbolPatternMessageIsReadable()
    ensures ']' !in SymbolPatternViolation.Message()
  {
    var a, b := "Symbol must be 3 letters ", "followed by 1 number";
    assert ']' !in a;
    assert ']' !in b;
    NoCloseInConcat(a, b);
  }

  lemma CompanyNamePatternMessageIsReadable()
    ensures ']' !in CompanyNamePatternViolation.Message()
  {
    var a, b, c, d := "Company name has ", "invalid characters. ", "Alphanumeric characters ", "and white spaces only.";
    assert ']' !in a;
    assert ']' !in b;
    assert ']' !in c;
    assert ']' !in d;
    NoCloseInConcat(a, b);
    NoCloseInConcat(a + b, c);
    NoCloseInConcat(a + b + c, d);
  }

  lemma ShortMessagesAreReadable()
    ensures ']' !in SymbolBlankViolation.Message()
    ensures ']' !in CompanyNameBlankViolation.Message()
  {
  }

  lemma PriceMessagesAreReadable()
    ensures ']' !in PriceNullViolation.Message()
    ensures ']' !in PriceMinViolation.Message()
  {
  }

  /** Every declared message can be read back out of a failure message. */
  lemma DetailsAreReadable(vs: seq<Violation>)
    ensures forall i :: 0 <= i < |vs| ==> Readable(Details(vs)[i])
  {
    SymbolPatternMessageIsReadable();
    CompanyNamePatternMessageIsReadable();
    ShortMessagesAreReadable();
    PriceMessagesAreReadable();
    forall i | 0 <= i < |vs| ensures Readable(Details(vs)[i]) {
      match vs[i]
      case _ =>
    }
  }
}
