/**
 * The SOAP body of the ContentDirectory:1 Browse action
 * (imaging-edge.py, lines 57-69). The client always sends the same
 * arguments apart from the object id, which is spliced in verbatim.
 * The body is written here as an encoding of the action's arguments, with
 * a decoder beside it, so that what the camera receives can be read back.
 */
module Envelope {
  import opened Wrappers

  /** The six arguments of the Browse action, in the order they are sent. */
  datatype BrowseArgs = BrowseArgs(
    objectId: string,
    browseFlag: string,
    filter: string,
    startingIndex: nat,
    requestedCount: nat,
    sortCriteria: string)

  /** What the client asks for: all direct children of `id`, from 0, at most 9999, unsorted. */
  function BrowseArgsFor(id: string): BrowseArgs
  {
    BrowseArgs(id, "BrowseDirectChildren", "*", 0, 9999, "")
  }

  const Preamble: string :=
    "<?xml version=\"1.0\"?>"
    + "<s:Envelope xmlns:s=\"http://schemas.xmlsoap.org/soap/envelope/\" s:encodingStyle=\"http://schemas.xmlsoap.org/soap/encoding/\">"
    + "<s:Body>"
    + "<u:Browse xmlns:u=\"urn:schemas-upnp-org:service:ContentDirectory:1\">"

  const Postamble: string := "</u:Browse>" + "</s:Body>" + "</s:Envelope>"

  function Open(name: string): string { "<" + name + ">" }
  function Close(name: string): string { "</" + name + ">" }

  /** An element with text content, the text written as it is (no escaping). */
  function Element(name: string, text: string): string
  {
    Open(name) + text + Close(name)
  }

  function Digit(d: nat): char
    requires d < 10
  {
    ('0' as int + d) as char
  }

  /** Decimal notation of `n`, as Python's `str` writes it. */
  function Decimal(n: nat): (s: string)
    ensures |s| > 0 && forall i :: 0 <= i < |s| ==> '0' <= s[i] <= '9'
    decreases n
  {
    if n < 10 then [Digit(n)] else Decimal(n / 10) + [Digit(n % 10)]
  }

  /** The six argument elements and the closing tags, in the order the source writes them. */
  function EncodeArguments(a: BrowseArgs): string
  {
    Element("ObjectID", a.objectId)
    + (Element("BrowseFlag", a.browseFlag)
    + (Element("Filter", a.filter)
    + (Element("StartingIndex", Decimal(a.startingIndex))
    + (Element("RequestedCount", Decimal(a.requestedCount))
    + (Element("SortCriteria", a.sortCriteria)
    + Postamble)))))
  }

  function EncodeBrowse(a: BrowseArgs): string
  {
    Preamble + EncodeArguments(a)
  }

  /** The request body the client posts to browse the directory `id`. */
  function BrowseEnvelope(id: string): string
  {
    EncodeBrowse(BrowseArgsFor(id))
  }

  // ---- Decoding ----

  predicate StartsWith(s: string, p: string)
  {
    |p| <= |s| && s[..|p|] == p
  }

  /** Index of the first '<' in `s`, or |s| when there is none. */
  function MarkupStart(s: string): (k: nat)
    ensures k <= |s| && '<' !in s[..k] && (k < |s| ==> s[k] == '<')
  {
    if s == [] || s[0] == '<' then 0
    else
      var k := MarkupStart(s[1..]);
      assert s[..k + 1] == [s[0]] + s[1..][..k];
      k + 1
  }

  /** Reads `<name>text</name>` at the front of `s`: the text (up to the next '<') and the rest. */
  function ReadElement(name: string, s: string): Option<(string, string)>
  {
    if !StartsWith(s, Open(name)) then None
    else
      var t := s[|Open(name)|..];
      var k := MarkupStart(t);
      var rest := t[k..];
      if !StartsWith(rest, Close(name)) then None
      else Some((t[..k], rest[|Close(name)|..]))
  }

  function DigitValue(c: char): nat
  {
    if '0' <= c <= '9' then (c - '0') as nat else 0
  }

  function DecimalValue(s: string): nat
    decreases |s|
  {
    if s == [] then 0 else DecimalValue(s[..|s| - 1]) * 10 + DigitValue(s[|s| - 1])
  }

  function ParseDecimal(s: string): Option<nat>
  {
    if |s| > 0 && forall i :: 0 <= i < |s| ==> '0' <= s[i] <= '9' then Some(DecimalValue(s))
    else None
  }

  /** Reads back the six arguments and the closing tags. */
  function DecodeArguments(s: string): Option<BrowseArgs>
  {
    match ReadElement("ObjectID", s)
    case None => None
    case Some((objectId, s1)) =>
    match ReadElement("BrowseFlag", s1)
    case None => None
    case Some((browseFlag, s2)) =>
    match ReadElement("Filter", s2)
    case None => None
    case Some((filter, s3)) =>
    match ReadElement("StartingIndex", s3)
    case None => None
    case Some((start, s4)) =>
    match ReadElement("RequestedCount", s4)
    case None => None
    case Some((count, s5)) =>
    match ReadElement("SortCriteria", s5)
    case None => None
    case Some((sort, s6)) =>
    match (ParseDecimal(start), ParseDecimal(count))
    case (Some(i), Some(n)) =>
      if s6 == Postamble then Some(BrowseArgs(objectId, browseFlag, filter, i, n, sort)) else None
    case _ => None
  }

  /** Reads back the arguments of a Browse body, or None when it is not one. */
  function DecodeBrowse(s: string): Option<BrowseArgs>
  {
    if StartsWith(s, Preamble) then DecodeArguments(s[|Preamble|..]) else None
  }

  // ---- Round trip ----

  lemma Split(p: string, q: string)
    ensures StartsWith(p + q, p) && (p + q)[|p|..] == q
  {
    assert (p + q)[..|p|] == p;
  }

  lemma {:induction false} DecimalValueOf(n: nat)
    ensures DecimalValue(Decimal(n)) == n
    decreases n
  {
    if n >= 10 {
      DecimalValueOf(n / 10);
      var s := Decimal(n / 10) + [Digit(n % 10)];
      assert s[..|s| - 1] == Decimal(n / 10);
    }
  }

  lemma DecimalRoundTrip(n: nat)
    ensures ParseDecimal(Decimal(n)) == Some(n)
  {
    DecimalValueOf(n);
  }

  lemma {:induction false} MarkupStartAfterText(text: string, tail: string)
    requires '<' !in text && |tail| > 0 && tail[0] == '<'
    ensures MarkupStart(text + tail) == |text|
    decreases |text|
  {
    if text != [] {
      assert (text + tail)[1..] == text[1..] + tail;
      MarkupStartAfterText(text[1..], tail);
    }
  }

  lemma ReadElementRoundTrip(name: string, text: string, rest: string)
    requires '<' !in text
    ensures ReadElement(name, Element(name, text) + rest) == Some((text, rest))
  {
    var o, c := Open(name), Close(name);
    var t := text + (c + rest);
    assert Element(name, text) + rest == o + t;
    Split(o, t);
    MarkupStartAfterText(text, c + rest);
    Split(text, c + rest);
    Split(c, rest);
  }

  lemma DecimalHasNoMarkup(n: nat)
    ensures '<' !in Decimal(n)
  {
    var s := Decimal(n);
    assert forall i :: 0 <= i < |s| ==> s[i] != '<';
  }

  /**
   * The text after the preamble, the six argument elements and the
   * closing tags, decodes back to the arguments when the text arguments
   * contain no '<'.
   */
  lemma ArgumentsRoundTrip(a: BrowseArgs)
    requires '<' !in a.objectId && '<' !in a.browseFlag && '<' !in a.filter && '<' !in a.sortCriteria
    ensures DecodeArguments(EncodeArguments(a)) == Some(a)
  {
    var s5 := Element("SortCriteria", a.sortCriteria) + Postamble;
    var s4 := Element("RequestedCount", Decimal(a.requestedCount)) + s5;
    var s3 := Element("StartingIndex", Decimal(a.startingIndex)) + s4;
    var s2 := Element("Filter", a.filter) + s3;
    var s1 := Element("BrowseFlag", a.browseFlag) + s2;
    DecimalHasNoMarkup(a.startingIndex);
    DecimalHasNoMarkup(a.requestedCount);
    ReadElementRoundTrip("ObjectID", a.objectId, s1);
    ReadElementRoundTrip("BrowseFlag", a.browseFlag, s2);
    ReadElementRoundTrip("Filter", a.filter, s3);
    ReadElementRoundTrip("StartingIndex", Decimal(a.startingIndex), s4);
    ReadElementRoundTrip("RequestedCount", Decimal(a.requestedCount), s5);
    ReadElementRoundTrip("SortCriteria", a.sortCriteria, Postamble);
    DecimalRoundTrip(a.startingIndex);
    DecimalRoundTrip(a.requestedCount);
  }

  /**
   * Decoding an encoded Browse body gives back its arguments, provided
   * the text arguments contain no '<' (they are not escaped).
   */
  lemma BrowseRoundTrip(a: BrowseArgs)
    requires '<' !in a.objectId && '<' !in a.browseFlag && '<' !in a.filter && '<' !in a.sortCriteria
    ensures DecodeBrowse(EncodeBrowse(a)) == Some(a)
  {
    Split(Preamble, EncodeArguments(a));
    ArgumentsRoundTrip(a);
  }

  /**
   * `DecodeBrowse` reads back `ObjectID = id`, flag BrowseDirectChildren,
   * filter `*`, start 0, count 9999 and empty sort criteria from the body
   * the client sends for any id without '<'. It does not decode XML
   * entities: an XML reader on the camera reads a different id from an
   * id holding `&`.
   */
  lemma BrowseEnvelopeArgs(id: string)
    requires '<' !in id
    ensures DecodeBrowse(BrowseEnvelope(id)) ==
      Some(BrowseArgs(id, "BrowseDirectChildren", "*", 0, 9999, ""))
  {
    BrowseRoundTrip(BrowseArgsFor(id));
  }

  /** The arguments after the object id; the same in every body the client sends. */
  function FixedArguments(): string
  {
    Element("BrowseFlag", "BrowseDirectChildren")
    + (Element("Filter", "*")
    + (Element("StartingIndex", Decimal(0))
    + (Element("RequestedCount", Decimal(9999))
    + (Element("SortCriteria", "")
    + Postamble))))
  }

  lemma Regroup(p: string, o: string, x: string, c: string, f: string)
    ensures p + (o + x + c + f) == (p + o) + x + (c + f)
  {
  }

  lemma CancelFrame(p: string, a: string, b: string, q: string)
    requires p + a + q == p + b + q
    ensures a == b
  {
    var s, t := p + a + q, p + b + q;
    assert |a| == |b|;
    assert a == s[|p|..|p| + |a|];
    assert b == t[|p|..|p| + |b|];
  }

  /**
   * The id is placed between `<ObjectID>` and `</ObjectID>` right after
   * the fixed preamble, whatever characters it holds, and everything
   * around it is the same for every id.
   */
  lemma BrowseEnvelopeVerbatim(id: string)
    ensures BrowseEnvelope(id) ==
      (Preamble + Open("ObjectID")) + id + (Close("ObjectID") + FixedArguments())
  {
    Regroup(Preamble, Open("ObjectID"), id, Close("ObjectID"), FixedArguments());
  }

  /** Different ids give different bodies. */
  lemma BrowseEnvelopeInjective(a: string, b: string)
    requires BrowseEnvelope(a) == BrowseEnvelope(b)
    ensures a == b
  {
    BrowseEnvelopeVerbatim(a);
    BrowseEnvelopeVerbatim(b);
    CancelFrame(Preamble + Open("ObjectID"), a, b, Close("ObjectID") + FixedArguments());
  }
}
