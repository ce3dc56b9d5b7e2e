/** The parser registry (`vendors/registry.py`): a fixed, ordered list of
    parsers and a first-match dispatch in which a detector that raises
    counts as a non-match. The Mouser, Newark, Arduino and Bambu Lab
    detectors are not part of this model; their outcomes are an input. */
module Registry {
  import opened Wrappers
  import opened Text
  import opened Base
  import McMaster
  import DigiKey

  /** `all_parsers`: the order in which detectors are consulted. */
  const AllParsers: seq<Parser> :=
    [McMasterParser, DigiKeyParser, MouserParser, NewarkParser, ArduinoParser, BambuLabParser]

  /** The `vendor` attribute of a registered parser. The Mouser, Newark,
      Arduino and Bambu Lab parsers are not part of this model, so their
      identifiers are unknown here. */
  function VendorId(p: Parser): Option<string> {
    match p
    case McMasterParser => Some(McMaster.Vendor)
    case DigiKeyParser => Some(DigiKey.Vendor)
    case _ => None
  }

  /** `VendorId` agrees with the `vendor` field each modelled parser writes:
      the McMaster order and every McMaster line item, and the Digi-Key
      order, name the vendor of the parser that produced them. */
  lemma VendorIdAgrees(doc: Document, info: McMaster.OrderInfo, ds: seq<McMaster.RawItem>, text: string)
    ensures VendorId(McMasterParser) == Some(McMaster.ParseOrder(doc, info).vendor)
    ensures forall k :: 0 <= k < |ds| ==>
              VendorId(McMasterParser) == Some(McMaster.Items(doc, McMaster.ParseOrder(doc, info), ds)[k].vendor)
    ensures VendorId(DigiKeyParser) == Some(DigiKey.ParseOrder(text).vendor)
  {
    forall k | 0 <= k < |ds|
      ensures McMaster.Items(doc, McMaster.ParseOrder(doc, info), ds)[k].vendor == McMaster.Vendor
    {
      McMaster.ItemsCarryOrder(doc, info, ds, k);
    }
  }

  /** The position of the first detector that answered true, if any;
      detectors that answered false or raised are passed over. */
  function FirstDetected(outcomes: seq<Detection>): (r: Option<nat>)
    ensures r.None? <==> forall i :: 0 <= i < |outcomes| ==> outcomes[i] != Yes
    ensures r.Some? ==> r.value < |outcomes| && outcomes[r.value] == Yes
    ensures r.Some? ==> forall j :: 0 <= j < r.value ==> outcomes[j] in {No, Raised}
  {
    if outcomes == [] then None
    else if outcomes[0] == Yes then Some(0)
    else match FirstDetected(outcomes[1..])
      case None => None
      case Some(i) => Some(i + 1)
  }

  /** A detector that raises is indistinguishable from one that answers
      false: the search goes on to the next parser either way. */
  lemma {:induction false} RaisedIsNonMatch(outcomes: seq<Detection>, i: nat)
    requires i < |outcomes| && outcomes[i] == Raised
    ensures FirstDetected(outcomes[i := No]) == FirstDetected(outcomes)
    decreases i
  {
    if i > 0 {
      assert outcomes[i := No][1..] == outcomes[1..][i - 1 := No];
      RaisedIsNonMatch(outcomes[1..], i - 1);
    }
  }

  /** What one registered parser's `detect` does on a document. McMaster's
      and DigiKey's detectors are modelled; the other four are given by
      `others`. */
  function Outcome(p: Parser, doc: Document, others: Parser -> Detection): (d: Detection)
    ensures p == McMasterParser ==> (d == Yes <==> McMaster.Detect(doc)) && d != Raised
    ensures p == DigiKeyParser ==> d == DigiKey.Detect(doc.firstPage)
    ensures p !in {McMasterParser, DigiKeyParser} ==> d == others(p)
  {
    match p
    case McMasterParser => if McMaster.Detect(doc) then Yes else No
    case DigiKeyParser => DigiKey.Detect(doc.firstPage)
    case _ => others(p)
  }

  /** The outcomes of the registered detectors, in registry order. */
  function Outcomes(doc: Document, others: Parser -> Detection): (ds: seq<Detection>)
    ensures |ds| == |AllParsers|
    ensures forall i :: 0 <= i < |ds| ==> ds[i] == Outcome(AllParsers[i], doc, others)
  {
    seq(|AllParsers|, i requires 0 <= i < |AllParsers| => Outcome(AllParsers[i], doc, others))
  }

  /** `pick_parser`: the first parser, in registry order, whose detector
      answers true; None when every detector answered false or raised. */
  function PickParser(doc: Document, others: Parser -> Detection): (r: Option<Parser>)
    ensures r.None? <==> forall i :: 0 <= i < |AllParsers| ==> Outcome(AllParsers[i], doc, others) != Yes
    ensures r.Some? ==> exists i :: 0 <= i < |AllParsers| && AllParsers[i] == r.value
                                    && Outcome(AllParsers[i], doc, others) == Yes
                                    && forall j :: 0 <= j < i ==> Outcome(AllParsers[j], doc, others) != Yes
  {
    match FirstDetected(Outcomes(doc, others))
    case None => None
    case Some(i) => Some(AllParsers[i])
  }

  /** A file named after McMaster goes to the McMaster parser, whatever
      the other detectors say and even when it cannot be read. */
  lemma PickByMcMasterName(doc: Document, others: Parser -> Detection)
    requires Contains(Lower(doc.name), McMaster.Vendor)
    ensures PickParser(doc, others) == Some(McMasterParser)
  {
    assert Outcomes(doc, others)[0] == Yes;
  }

  /** A DigiKey receipt that McMaster's detector does not claim goes to the
      DigiKey parser. */
  lemma PickDigiKey(doc: Document, others: Parser -> Detection)
    requires !McMaster.Detect(doc) && DigiKey.Detect(doc.firstPage) == Yes
    ensures PickParser(doc, others) == Some(DigiKeyParser)
  {
    var ds := Outcomes(doc, others);
    assert ds[0] == No && ds[1] == Yes;
    assert ds[1..][0] == Yes;
  }

  /** A document that neither modelled detector claims, and that no other
      detector answers true for, has no parser. */
  lemma PickNone(doc: Document, others: Parser -> Detection)
    requires !McMaster.Detect(doc) && DigiKey.Detect(doc.firstPage) != Yes
    requires forall p :: others(p) != Yes
    ensures PickParser(doc, others).None?
  {
  }

  /** An unreadable file not named after McMaster has no parser unless one
      of the other four detectors claims it: McMaster's detector answers
      false and DigiKey's raises, which the registry passes over. */
  lemma PickUnreadable(doc: Document, others: Parser -> Detection)
    requires doc.firstPage.Unreadable? && !Contains(Lower(doc.name), McMaster.Vendor)
    requires forall p :: others(p) != Yes
    ensures PickParser(doc, others).None?
  {
    PickNone(doc, others);
  }

  /** A file with an empty first page, not named after McMaster, has no
      parser unless one of the other four detectors claims it. */
  lemma PickEmptyPage(doc: Document, others: Parser -> Detection)
    requires doc.firstPage == Page(Some("")) && !Contains(Lower(doc.name), McMaster.Vendor)
    requires forall p :: others(p) != Yes
    ensures PickParser(doc, others).None?
  {
    assert !Contains(Lower(""), McMaster.Vendor);
    assert !Contains(Upper(""), DigiKey.Marker);
    PickNone(doc, others);
  }
}
