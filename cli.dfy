/** The inventory rules of the command-line tool (`art_studio_org/cli.py`):
    the string helpers `safe_str` and `shorten`, the `vendor:sku` split of a
    part key, and the receive/remove updates of the `parts_received` table
    and the `parts_removed` log. Prompts are answers given as parameters;
    the clock and the uuid generator are parameters too. */
module Cli {
  import opened Wrappers
  import opened Text
  import opened Numeric
  import opened Values

  // ---------------------------------------------------------------------
  // String helpers
  // ---------------------------------------------------------------------

  /** `safe_str`: `None` becomes the empty string, anything else its
      string form. */
  function SafeStr(v: Value): (r: string)
    ensures v.Null? ==> r == ""
    ensures !v.Null? ==> r == ToStr(v)
    ensures r == "" <==> v.Null? || v == Str("")
  {
    if v.Null? then "" else ToStr(v)
  }

  /** `safe_str` keeps the zero and the empty string that `str(v or "")`
      would both turn into "": the two agree exactly on truthy values and
      on `None`. */
  lemma SafeStrVersusOrEmpty(v: Value)
    ensures Truthy(v) || v.Null? ==> SafeStr(v) == OrEmpty(v)
    ensures v == Int(0) ==> SafeStr(v) == "0" && OrEmpty(v) == ""
  {
    if v == Int(0) {
      assert NatToString(0) == "0";
    }
  }

  /** Python's `s[:k]` for any integer `k`: a negative `k` counts from the
      end, and the slice never runs past either end. */
  function PyPrefix(s: string, k: int): (r: string)
    ensures 0 <= k <= |s| ==> r == s[..k]
    ensures k < 0 ==> r == s[..if |s| + k < 0 then 0 else |s| + k]
    ensures k > |s| ==> r == s
  {
    if k < 0 then (if |s| + k < 0 then [] else s[..|s| + k])
    else if k > |s| then s
    else s[..k]
  }

  /** The ellipsis `shorten` puts at the end of a cut string. */
  const Ellipsis: char := '…'

  /** `shorten(s, n)`: `safe_str(s)` when it has at most `n` characters;
      otherwise its first `n - 1` characters (Python slice rules) and an
      ellipsis. */
  function Shorten(v: Value, n: int): (r: string)
    ensures |SafeStr(v)| <= n ==> r == SafeStr(v)
    ensures |SafeStr(v)| > n ==> |r| > 0 && r[|r| - 1] == Ellipsis
    ensures |SafeStr(v)| > n ==> r[..|r| - 1] <= SafeStr(v)
    ensures |SafeStr(v)| > n && n >= 1 ==> |r| == n
  {
    var s := SafeStr(v);
    if |s| <= n then s else PyPrefix(s, n - 1) + [Ellipsis]
  }

  /** For a positive width the result never exceeds it, and what is kept
      is the start of the string. */
  lemma ShortenFits(v: Value, n: int)
    requires n >= 1
    ensures |Shorten(v, n)| <= n
    ensures Shorten(v, n) == SafeStr(v) || Shorten(v, n) == SafeStr(v)[..n - 1] + [Ellipsis]
  {
  }

  /** For a width below one, a cut string loses `1 - n` characters from its
      end before the ellipsis goes on, so the result can be longer than
      the width. */
  lemma ShortenNonPositiveWidth(v: Value, n: int)
    requires n < 1 && |SafeStr(v)| > 0
    ensures |Shorten(v, n)| == (if |SafeStr(v)| + n - 1 < 0 then 0 else |SafeStr(v)| + n - 1) + 1
  {
  }

  // ---------------------------------------------------------------------
  // Part keys
  // ---------------------------------------------------------------------

  /** The position of the first ':' in `s`, if any. */
  function FirstColon(s: string): (r: Option<nat>)
    ensures r.None? <==> forall i :: 0 <= i < |s| ==> s[i] != ':'
    ensures r.Some? ==> r.value < |s| && s[r.value] == ':'
                        && forall i :: 0 <= i < r.value ==> s[i] != ':'
  {
    if s == [] then None
    else if s[0] == ':' then Some(0)
    else match FirstColon(s[1..])
      case None => None
      case Some(i) => Some(i + 1)
  }

  /** The default vendor and sku of a new part: the key split at its first
      ':', or two empty strings when there is no ':'. */
  function SplitPartKey(key: string): (r: (string, string))
    ensures FirstColon(key).None? ==> r == ("", "")
    ensures FirstColon(key).Some? ==> key == r.0 + ":" + r.1
    ensures forall i :: 0 <= i < |r.0| ==> r.0[i] != ':'
  {
    match FirstColon(key)
    case None => ("", "")
    case Some(i) => (key[..i], key[i + 1..])
  }

  /** Joining a vendor without ':' and any sku with ':' and splitting again
      gives them back; the sku keeps any colons of its own. */
  lemma SplitJoin(vendor: string, sku: string)
    requires forall i :: 0 <= i < |vendor| ==> vendor[i] != ':'
    ensures SplitPartKey(vendor + ":" + sku) == (vendor, sku)
  {
    var key := vendor + ":" + sku;
    assert FirstColon(key) == Some(|vendor|) by {
      var r := FirstColon(key);
      assert key[|vendor|] == ':';
      assert forall i :: 0 <= i < |vendor| ==> key[i] == vendor[i];
    }
    assert key[..|vendor|] == vendor && key[|vendor| + 1..] == sku;
  }

  // ---------------------------------------------------------------------
  // Receiving and removing
  // ---------------------------------------------------------------------

  /** `Prompt.ask(..., default=d)`: the typed answer, or `d` when the
      answer is left empty (`None`). */
  function Ask(answer: Option<string>, default: string): (r: string)
    ensures answer.None? ==> r == default
    ensures answer.Some? ==> r == answer.value
  {
    answer.GetOr(default)
  }

  /** The unit cost typed at the receive prompt, stripped: the number it
      reads as, and 0.0 when it is empty or not a number. (`float` strips
      again, which changes nothing on stripped text.) */
  function UnitCost(text: string): (c: real)
    ensures Strip(text) == "" ==> c == 0.0
    ensures ParseDecimal(Strip(text)).None? ==> c == 0.0
    ensures ParseDecimal(Strip(text)).Some? ==> c == ParseDecimal(Strip(text)).value
  {
    var u := Strip(text);
    if u == "" then 0.0
    else match ParseDecimal(u)
      case None => 0.0
      case Some(x) => x
  }

  /** SQL `COALESCE(x, 0)`. */
  function Coalesce(x: Option<real>): real {
    x.GetOr(0.0)
  }

  /** One row of `parts_received`, as `inv_receive` writes it. Numeric
      columns may be NULL. */
  datatype Row = Row(
    vendor: string,
    sku: string,
    description: string,
    descClean: string,
    labelLine1: string,
    labelLine2: string,
    labelShort: string,
    purchaseUrl: string,
    airtableUrl: string,
    labelQrUrl: string,
    labelQrText: string,
    unitsReceived: Option<real>,
    totalSpend: Option<real>,
    lastInvoice: Option<string>,
    avgUnitCost: Option<real>,
    updatedUtc: string)

  /** One entry of the `parts_removed` log. */
  datatype Removal = Removal(
    removalUid: string,
    partKey: string,
    qtyRemoved: real,
    tsUtc: string,
    project: string,
    note: string,
    updatedUtc: string)

  /** The answers to the metadata prompts for a new part; `None` accepts
      the prompt's default. */
  datatype NewPartAnswers = NewPartAnswers(
    vendor: Option<string>,
    sku: Option<string>,
    description: Option<string>,
    labelShort: Option<string>,
    labelLine1: Option<string>,
    labelLine2: Option<string>,
    purchaseUrl: Option<string>,
    airtableUrl: Option<string>,
    labelQrUrl: Option<string>,
    labelQrText: Option<string>)

  /** The average cost agrees with the totals whenever both are positive. */
  predicate AvgConsistent(r: Row) {
    var u := Coalesce(r.unitsReceived);
    var t := Coalesce(r.totalSpend);
    u > 0.0 && t > 0.0 ==> r.avgUnitCost == Some(t / u)
  }

  /** The UPDATE of an existing row: quantity and spend are added (NULL
      counting as 0), and the average is recomputed only when both new
      totals are positive. */
  function UpdatedRow(r: Row, qty: real, added: real, ts: string): (r': Row)
    ensures r'.unitsReceived == Some(Coalesce(r.unitsReceived) + qty)
    ensures r'.totalSpend == Some(Coalesce(r.totalSpend) + added)
    ensures AvgConsistent(r')
    ensures (Coalesce(r'.unitsReceived) <= 0.0 || Coalesce(r'.totalSpend) <= 0.0)
              ==> r'.avgUnitCost == r.avgUnitCost
    ensures r'.updatedUtc == ts
    ensures r' == r.(unitsReceived := r'.unitsReceived, totalSpend := r'.totalSpend,
                     avgUnitCost := r'.avgUnitCost, updatedUtc := ts)
  {
    var u := Coalesce(r.unitsReceived) + qty;
    var t := Coalesce(r.totalSpend) + added;
    r.(unitsReceived := Some(u), totalSpend := Some(t),
       avgUnitCost := if u > 0.0 && t > 0.0 then Some(t / u) else r.avgUnitCost,
       updatedUtc := ts)
  }

  /** The INSERT of a new part: quantity and spend as received, no invoice,
      the average cost (0.0 when there is no spend), and the metadata from
      the prompts with their defaults. */
  function NewRow(key: string, a: NewPartAnswers, qty: real, added: real, ts: string): (r: Row)
    requires qty > 0.0
    ensures r.unitsReceived == Some(qty) && r.totalSpend == Some(added)
    ensures r.lastInvoice.None?
    ensures added > 0.0 ==> r.avgUnitCost == Some(added / qty)
    ensures added <= 0.0 ==> r.avgUnitCost == Some(0.0)
    ensures AvgConsistent(r)
    ensures r.vendor == Ask(a.vendor, SplitPartKey(key).0) && r.sku == Ask(a.sku, SplitPartKey(key).1)
    ensures r.description == Ask(a.description, "") && r.descClean == Strip(r.description)
    ensures r.labelLine1 == Ask(a.labelLine1, "") && r.labelLine2 == Ask(a.labelLine2, "")
    ensures r.purchaseUrl == Ask(a.purchaseUrl, "") && r.airtableUrl == Ask(a.airtableUrl, "")
    ensures r.labelQrUrl == Ask(a.labelQrUrl, "") && r.labelQrText == Ask(a.labelQrText, "")
    ensures r.labelShort == Ask(a.labelShort, if r.description == "" then key else r.description)
    ensures r.updatedUtc == ts
  {
    var description := Ask(a.description, "");
    Row(Ask(a.vendor, SplitPartKey(key).0), Ask(a.sku, SplitPartKey(key).1),
        description, Strip(description),
        Ask(a.labelLine1, ""), Ask(a.labelLine2, ""),
        Ask(a.labelShort, if description == "" then key else description),
        Ask(a.purchaseUrl, ""), Ask(a.airtableUrl, ""), Ask(a.labelQrUrl, ""), Ask(a.labelQrText, ""),
        Some(qty), Some(added), None,
        Some(if added > 0.0 then added / qty else 0.0),
        ts)
  }

  /** Two receipts of a part that leave positive totals are the same as one
      receipt of their combined quantity and spend: the average cost is
      the spend-weighted average over everything received. */
  lemma {:induction false} ReceiveTwice(r: Row, q1: real, a1: real, q2: real, a2: real, ts1: string, ts2: string)
    requires Coalesce(r.unitsReceived) + q1 + q2 > 0.0 && Coalesce(r.totalSpend) + a1 + a2 > 0.0
    ensures UpdatedRow(UpdatedRow(r, q1, a1, ts1), q2, a2, ts2) == UpdatedRow(r, q1 + q2, a1 + a2, ts2)
  {
    var r1 := UpdatedRow(r, q1, a1, ts1);
    var r2 := UpdatedRow(r1, q2, a2, ts2);
    var r3 := UpdatedRow(r, q1 + q2, a1 + a2, ts2);
    assert Coalesce(r2.unitsReceived) == Coalesce(r3.unitsReceived);
    assert Coalesce(r2.totalSpend) == Coalesce(r3.totalSpend);
  }

  /** What `inv_receive` did. */
  datatype ReceiveOutcome = NoKey | QtyRejected | Updated | Inserted

  /** What `inv_remove` did. */
  datatype RemoveOutcome = NoKey | NotFound | QtyRejected | Logged

  /** The two inventory tables: `parts_received` keyed by part key, and the
      append-only `parts_removed` log. */
  class Inventory {
    var received: map<string, Row>
    var removed: seq<Removal>

    /** Every row's average agrees with its totals, and every removal
        names a part that has been received. */
    ghost predicate Valid()
      reads this
    {
      (forall k :: k in received ==> AvgConsistent(received[k]))
      && (forall i :: 0 <= i < |removed| ==> removed[i].partKey in received)
    }

    constructor()
      ensures Valid() && received == map[] && removed == []
    {
      received := map[];
      removed := [];
    }

    /** `inv_receive`: an empty key does nothing; a quantity that is not
        positive is rejected and changes nothing; otherwise an existing row
        is updated and a new key is inserted. The log is never touched. */
    method Receive(keyInput: string, qty: real, costInput: string, ts: string, answers: NewPartAnswers)
      returns (outcome: ReceiveOutcome)
      requires Valid()
      modifies this
      ensures Valid()
      ensures removed == old(removed)
      ensures Strip(keyInput) == "" ==> outcome == ReceiveOutcome.NoKey && received == old(received)
      ensures Strip(keyInput) != "" && qty <= 0.0 ==>
                outcome == ReceiveOutcome.QtyRejected && received == old(received)
      ensures Strip(keyInput) != "" && qty > 0.0 && Strip(keyInput) in old(received) ==>
                outcome == Updated
                && received == old(received)[Strip(keyInput) :=
                     UpdatedRow(old(received)[Strip(keyInput)], qty, qty * UnitCost(costInput), ts)]
      ensures Strip(keyInput) != "" && qty > 0.0 && Strip(keyInput) !in old(received) ==>
                outcome == Inserted
                && received == old(received)[Strip(keyInput) :=
                     NewRow(Strip(keyInput), answers, qty, qty * UnitCost(costInput), ts)]
    {
      var key := Strip(keyInput);
      if key == "" {
        return ReceiveOutcome.NoKey;
      }
      if qty <= 0.0 {
        return ReceiveOutcome.QtyRejected;
      }
      var added := qty * UnitCost(costInput);
      if key in received {
        received := received[key := UpdatedRow(received[key], qty, added, ts)];
        outcome := Updated;
      } else {
        received := received[key := NewRow(key, answers, qty, added, ts)];
        outcome := Inserted;
      }
    }

    /** `inv_remove`: an empty key does nothing; an unknown key or a
        quantity that is not positive is refused; otherwise exactly one
        entry is appended to the log. `parts_received` is never changed. */
    method Remove(keyInput: string, qty: real, projectInput: string, noteInput: string,
                  ts: string, uid: string)
      returns (outcome: RemoveOutcome)
      requires Valid()
      modifies this
      ensures Valid()
      ensures received == old(received)
      ensures outcome == Logged <==>
                Strip(keyInput) != "" && Strip(keyInput) in old(received) && qty > 0.0
      ensures outcome == Logged ==>
                removed == old(removed) + [Removal(uid, Strip(keyInput), qty, ts,
                                                   Strip(projectInput), Strip(noteInput), ts)]
      ensures outcome != Logged ==> removed == old(removed)
      ensures Strip(keyInput) == "" ==> outcome == RemoveOutcome.NoKey
      ensures Strip(keyInput) != "" && Strip(keyInput) !in old(received) ==> outcome == NotFound
    {
      var key := Strip(keyInput);
      if key == "" {
        return RemoveOutcome.NoKey;
      }
      if key !in received {
        return NotFound;
      }
      if qty <= 0.0 {
        return RemoveOutcome.QtyRejected;
      }
      removed := removed + [Removal(uid, key, qty, ts, Strip(projectInput), Strip(noteInput), ts)];
      outcome := Logged;
    }
  }
}
