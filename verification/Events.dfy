/** Enriched events and the fields that rules and correlations may name. */
module Events {
  import opened Sequences

  /** The parts of an enriched event that the engine reads.  `amountUSD` is the dollar value as the engine
      formats it before comparing. */
  datatype Event = Event(
    eventType: string,
    chain: string,
    token: string,
    amount: string,
    sourceAddress: string,
    contractAddress: string,
    destChain: Option<string>,
    contractName: Option<string>,
    protocol: Option<string>,
    amountUSD: Option<string>)

  const KNOWN_FIELDS: set<string> := {
    "amount_usd", "destination_chain", "source_chain", "token", "amount", "source_address", "protocol",
    "contract_name", "contract_address" }

  function OrEmpty(o: Option<string>): string {
    match o
    case None => ""
    case Some(v) => v
  }

  function FieldValue(field: string, e: Event): string {
    match field
    case "amount_usd" => OrEmpty(e.amountUSD)
    case "destination_chain" => OrEmpty(e.destChain)
    case "source_chain" => e.chain
    case "token" => e.token
    case "amount" => e.amount
    case "source_address" => e.sourceAddress
    case "protocol" => OrEmpty(e.protocol)
    case "contract_name" => OrEmpty(e.contractName)
    case "contract_address" => e.contractAddress
    case _ => ""
  }

  /** The two events agree on every listed field. */
  predicate FieldsMatch(fields: seq<string>, a: Event, b: Event) {
    forall f :: f in fields ==> FieldValue(f, a) == FieldValue(f, b)
  }

  /** An optional part counts as empty when it is absent. */
  predicate SameOrEmpty(a: Option<string>, b: Option<string>) {
    a == b || ((a.None? || a.value == "") && (b.None? || b.value == ""))
  }

  /** What agreement on each name means. */
  lemma FieldsByName(a: Event, b: Event)
    ensures FieldsMatch(["source_chain"], a, b) <==> a.chain == b.chain
    ensures FieldsMatch(["token"], a, b) <==> a.token == b.token
    ensures FieldsMatch(["amount"], a, b) <==> a.amount == b.amount
    ensures FieldsMatch(["source_address"], a, b) <==> a.sourceAddress == b.sourceAddress
    ensures FieldsMatch(["contract_address"], a, b) <==> a.contractAddress == b.contractAddress
    ensures FieldsMatch(["destination_chain"], a, b) <==> SameOrEmpty(a.destChain, b.destChain)
    ensures FieldsMatch(["contract_name"], a, b) <==> SameOrEmpty(a.contractName, b.contractName)
    ensures FieldsMatch(["protocol"], a, b) <==> SameOrEmpty(a.protocol, b.protocol)
    ensures FieldsMatch(["amount_usd"], a, b) <==> SameOrEmpty(a.amountUSD, b.amountUSD)
  {
    hide FieldsMatch;
    OneField("source_chain", a, b);
    OneField("token", a, b);
    OneField("amount", a, b);
    OneField("source_address", a, b);
    OneField("contract_address", a, b);
    OneField("destination_chain", a, b);
    OneField("contract_name", a, b);
    OneField("protocol", a, b);
    OneField("amount_usd", a, b);
  }

  lemma UnknownFieldsAgree(f: string, a: Event, b: Event)
    requires f !in KNOWN_FIELDS
    ensures FieldsMatch([f], a, b)
  {
  }

  lemma OneField(f: string, a: Event, b: Event)
    ensures FieldsMatch([f], a, b) <==> FieldValue(f, a) == FieldValue(f, b)
  {
    hide FieldValue;
    assert f in [f];
  }

  /** The scan over the list that decides agreement. */
  method CompareFields(fields: seq<string>, a: Event, b: Event) returns (same: bool)
    ensures same <==> FieldsMatch(fields, a, b)
  {
    for i := 0 to |fields|
      invariant forall f :: f in fields[..i] ==> FieldValue(f, a) == FieldValue(f, b)
    {
      if FieldValue(fields[i], a) != FieldValue(fields[i], b) {
        return false;
      }
    }
    return true;
  }

  function Known(fields: seq<string>): set<string> {
    set f | f in fields && f in KNOWN_FIELDS
  }

  /** An event that is empty except for one field. */
  function Only(field: string): Event {
    var blank := Event("", "", "", "", "", "", None, None, None, None);
    match field
    case "amount_usd" => blank.(amountUSD := Some("x"))
    case "destination_chain" => blank.(destChain := Some("x"))
    case "source_chain" => blank.(chain := "x")
    case "token" => blank.(token := "x")
    case "amount" => blank.(amount := "x")
    case "source_address" => blank.(sourceAddress := "x")
    case "protocol" => blank.(protocol := Some("x"))
    case "contract_name" => blank.(contractName := Some("x"))
    case "contract_address" => blank.(contractAddress := "x")
    case _ => blank
  }

  /** Agreement on `fine` always implies agreement on `coarse` exactly when every field name of `coarse` that
      the engine knows is also listed in `fine`: names it does not know compare equal for all events. */
  lemma CoarserFields(coarse: seq<string>, fine: seq<string>)
    ensures Known(coarse) <= Known(fine) <==>
            forall a, b :: FieldsMatch(fine, a, b) ==> FieldsMatch(coarse, a, b)
  {
    if Known(coarse) <= Known(fine) {
      forall a, b | FieldsMatch(fine, a, b)
        ensures FieldsMatch(coarse, a, b)
      {
        forall f | f in coarse
          ensures FieldValue(f, a) == FieldValue(f, b)
        {
          if f in KNOWN_FIELDS {
            assert f in Known(coarse);
          }
        }
      }
    } else {
      var f :| f in Known(coarse) && f !in Known(fine);
      DifferOnlyAt(f);
      assert FieldsMatch(fine, Only(f), Only(""));
      assert !FieldsMatch(coarse, Only(f), Only(""));
    }
  }

  lemma DifferOnlyAt(f: string)
    requires f in KNOWN_FIELDS
    ensures FieldValue(f, Only(f)) != FieldValue(f, Only(""))
    ensures forall g :: g != f ==> FieldValue(g, Only(f)) == FieldValue(g, Only(""))
  {
  }
}
