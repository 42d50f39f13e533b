/** Canonical contract symbols: `ExchangeNo:CommodityType:CommodityNo:ContractNo`. */
module Symbols {
  import opened Prelude
  import opened Text

  datatype Symbol = Symbol(exchangeNo: string, commodityType: string, commodityNo: string, contractNo: string)

  function Clean(part: string): string {
    Upper(Strip(part))
  }

  function Parse(text: string): Option<Symbol> {
    var parts := Split(text, ':');
    if |parts| != 4 then None
    else
      var symbol := Symbol(Clean(parts[0]), Clean(parts[1]), Clean(parts[2]), Clean(parts[3]));
      if symbol.exchangeNo == "" || symbol.commodityType == "" || symbol.commodityNo == "" || symbol.contractNo == ""
      then None else Some(symbol)
  }

  function Canonical(s: Symbol): string {
    s.exchangeNo + ":" + s.commodityType + ":" + s.commodityNo + ":" + s.contractNo
  }

  /** What a field of a canonical symbol looks like. */
  predicate CleanField(f: string) {
    f != "" && Trimmed(f) && Upper(f) == f && ':' !in f
  }

  predicate WellFormed(s: Symbol) {
    && CleanField(s.exchangeNo) && CleanField(s.commodityType)
    && CleanField(s.commodityNo) && CleanField(s.contractNo)
  }

  lemma CleanIsClean(part: string)
    requires ':' !in part && Clean(part) != ""
    ensures CleanField(Clean(part))
  {
    var pre, post := StripSplits(part);
    assert forall c :: c in Strip(part) ==> c in part;
    UpperFixed(Strip(part));
    UpperKeepsOut(Strip(part), ':');
  }

  lemma CleanFixed(f: string)
    ensures Clean(f) == f && f != "" && ':' !in f <==> CleanField(f)
  {
    if CleanField(f) {
      StripFixed(f);
    } else if Clean(f) == f && f != "" && ':' !in f {
      CleanIsClean(f);
    }
  }

  lemma CanonicalSplits(s: Symbol)
    ensures Split(Canonical(s), ':')
         == Split(s.exchangeNo, ':') + Split(s.commodityType, ':') + Split(s.commodityNo, ':')
           + Split(s.contractNo, ':')
  {
    var two := s.exchangeNo + [':'] + s.commodityType;
    var three := two + [':'] + s.commodityNo;
    assert Canonical(s) == three + [':'] + s.contractNo;
    SplitJoin(s.exchangeNo, ':', s.commodityType);
    SplitJoin(two, ':', s.commodityNo);
    SplitJoin(three, ':', s.contractNo);
  }

  lemma ParsedIsWellFormed(text: string)
    requires Parse(text).Some?
    ensures WellFormed(Parse(text).value)
  {
    var parts := Split(text, ':');
    forall i | 0 <= i < 4
      ensures CleanField(Clean(parts[i]))
    {
      CleanIsClean(parts[i]);
    }
  }

  /**
   * Four texts between colons are the four fields in this order, each stripped
   * and in capitals, and the canonical text holds them in this order again.
   */
  lemma ParseFields(exchange: string, commodityType: string, commodity: string, contract: string)
    requires ':' !in exchange && ':' !in commodityType && ':' !in commodity && ':' !in contract
    ensures var text := exchange + ":" + commodityType + ":" + commodity + ":" + contract;
            var e, t := Upper(Strip(exchange)), Upper(Strip(commodityType));
            var d, n := Upper(Strip(commodity)), Upper(Strip(contract));
            if e != "" && t != "" && d != "" && n != ""
            then Parse(text) == Some(Symbol(e, t, d, n))
              && Canonical(Parse(text).value) == e + ":" + t + ":" + d + ":" + n
            else Parse(text).None?
  {
    var given := Symbol(exchange, commodityType, commodity, contract);
    CanonicalSplits(given);
    SplitWhole(exchange, ':');
    SplitWhole(commodityType, ':');
    SplitWhole(commodity, ':');
    SplitWhole(contract, ':');
    assert Canonical(given) == exchange + ":" + commodityType + ":" + commodity + ":" + contract;
  }

  /** Nothing else parses: every parsed text is four such texts. */
  lemma ParsedHasFields(text: string) returns (parts: seq<string>)
    requires Parse(text).Some?
    ensures |parts| == 4 && forall p :: p in parts ==> ':' !in p
    ensures text == parts[0] + ":" + parts[1] + ":" + parts[2] + ":" + parts[3]
  {
    parts := Split(text, ':');
    JoinSplit(text, ':');
    JoinFour(parts, ':');
  }

  lemma JoinFour(parts: seq<string>, sep: char)
    requires |parts| == 4
    ensures Join(parts, sep) == parts[0] + [sep] + parts[1] + [sep] + parts[2] + [sep] + parts[3]
  {
    assert parts[1..][1..] == parts[2..] && parts[2..][1..] == parts[3..];
    assert Join(parts[3..], sep) == parts[3];
    assert Join(parts[2..], sep) == parts[2] + [sep] + parts[3];
    assert Join(parts[1..], sep) == parts[1] + [sep] + (parts[2] + [sep] + parts[3]);
    assert Join(parts, sep) == parts[0] + [sep] + (parts[1] + [sep] + (parts[2] + [sep] + parts[3]));
  }

  /** Printing and parsing recovers a symbol exactly when its fields are clean. */
  lemma RoundTrip(s: Symbol)
    ensures Parse(Canonical(s)) == Some(s) <==> WellFormed(s)
  {
    CanonicalSplits(s);
    if WellFormed(s) {
      SplitWhole(s.exchangeNo, ':');
      SplitWhole(s.commodityType, ':');
      SplitWhole(s.commodityNo, ':');
      SplitWhole(s.contractNo, ':');
      CleanFixed(s.exchangeNo);
      CleanFixed(s.commodityType);
      CleanFixed(s.commodityNo);
      CleanFixed(s.contractNo);
    } else if Parse(Canonical(s)) == Some(s) {
      ParsedIsWellFormed(Canonical(s));
    }
  }

  /** Parsing the canonical form of any parsed symbol gives that symbol again. */
  lemma ParseCanonical(text: string)
    requires Parse(text).Some?
    ensures Parse(Canonical(Parse(text).value)) == Parse(text)
  {
    ParsedIsWellFormed(text);
    RoundTrip(Parse(text).value);
  }

  /** Two texts name the same contract exactly when their canonical forms coincide. */
  lemma CanonicalDecides(a: string, b: string)
    requires Parse(a).Some? && Parse(b).Some?
    ensures Canonical(Parse(a).value) == Canonical(Parse(b).value) <==> Parse(a) == Parse(b)
  {
    ParseCanonical(a);
    ParseCanonical(b);
  }
}
