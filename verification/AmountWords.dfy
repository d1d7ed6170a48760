/** Amounts spelt in Indian numbering, and a reader that recovers the amount. */
module AmountWords {
  import opened Prelude

  datatype Word =
    | Unit(d: nat) | Teen(d: nat) | Tens(d: nat)
    | Hundred | Thousand | Lakh | Crore
    | Zero | Minus | Rupees | And | Paise | Only

  const UNITS: seq<string> :=
    ["", "One", "Two", "Three", "Four", "Five", "Six", "Seven", "Eight", "Nine"]
  const TEENS: seq<string> :=
    ["Ten", "Eleven", "Twelve", "Thirteen", "Fourteen", "Fifteen", "Sixteen", "Seventeen", "Eighteen", "Nineteen"]
  const TENS: seq<string> :=
    ["", "", "Twenty", "Thirty", "Forty", "Fifty", "Sixty", "Seventy", "Eighty", "Ninety"]

  /** 1000 crore rupees in paise: from here on the crore chunk is beyond the word tables. */
  const LIMIT: int := 1_000_000_000_000

  predicate Proper(w: Word) {
    match w
    case Unit(d) => 1 <= d <= 9
    case Teen(d) => d <= 9
    case Tens(d) => 2 <= d <= 9
    case _ => true
  }

  predicate AllProper(ws: seq<Word>) {
    forall i :: 0 <= i < |ws| ==> Proper(ws[i])
  }

  function Spell(w: Word): string
    requires Proper(w)
  {
    match w
    case Unit(d) => UNITS[d]
    case Teen(d) => TEENS[d]
    case Tens(d) => TENS[d]
    case Hundred => "Hundred"
    case Thousand => "Thousand"
    case Lakh => "Lakh"
    case Crore => "Crore"
    case Zero => "Zero"
    case Minus => "Minus"
    case Rupees => "Rupees"
    case And => "and"
    case Paise => "Paise"
    case Only => "Only"
  }

  function SpellAll(ws: seq<Word>): (ss: seq<string>)
    requires AllProper(ws)
    ensures |ss| == |ws|
  {
    if ws == [] then [] else [Spell(ws[0])] + SpellAll(ws[1..])
  }

  /** " ".join(parts) */
  function Join(parts: seq<string>): string {
    if |parts| == 0 then "" else if |parts| == 1 then parts[0] else parts[0] + " " + Join(parts[1..])
  }

  // ---- the words of an amount ----

  function Hundreds(v: nat): (ws: seq<Word>)
    requires v < 1000
    ensures AllProper(ws)
  {
    if v >= 100 then [Unit(v / 100), Hundred] else []
  }

  function TensOrTeen(v: nat): (ws: seq<Word>)
    requires v < 100
    ensures AllProper(ws)
  {
    if v >= 20 then [Tens(v / 10)] else if v >= 10 then [Teen(v - 10)] else []
  }

  function Ones(v: nat): (ws: seq<Word>)
    requires v < 100
    ensures AllProper(ws)
  {
    if (v >= 20 || v < 10) && v % 10 > 0 then [Unit(v % 10)] else []
  }

  function UnderThousand(v: nat): (ws: seq<Word>)
    requires v < 1000
    ensures AllProper(ws)
    ensures v > 0 ==> ws != []
  {
    Hundreds(v) + TensOrTeen(v % 100) + Ones(v % 100)
  }

  function Chunk(v: nat, scale: Word): (ws: seq<Word>)
    requires v < 1000 && Proper(scale)
    ensures AllProper(ws)
  {
    if v > 0 then UnderThousand(v) + [scale] else []
  }

  function RupeeWords(r: nat): (ws: seq<Word>)
    requires r < LIMIT / 100
    ensures AllProper(ws)
    ensures r > 0 ==> ws != []
  {
    Chunk(r / 10_000_000, Crore)
    + Chunk(r % 10_000_000 / 100_000, Lakh)
    + Chunk(r % 100_000 / 1_000, Thousand)
    + UnderThousand(r % 1_000)
  }

  function RupeePart(paise: nat): (ws: seq<Word>)
    requires paise < LIMIT
    ensures AllProper(ws) && ws != []
  {
    if paise < 100 then [Zero] else RupeeWords(paise / 100)
  }

  function PaisePart(paise: nat): (ws: seq<Word>)
    ensures AllProper(ws)
  {
    if paise % 100 > 0 then [And] + UnderThousand(paise % 100) + [Paise] else []
  }

  function AmountWords(paise: nat): (ws: seq<Word>)
    requires paise < LIMIT
    ensures AllProper(ws)
    ensures ws != []
  {
    var said := RupeePart(paise) + [Rupees];
    assert AllProper(said);
    said + PaisePart(paise) + [Only]
  }

  function SignedWords(amount: int): (ws: seq<Word>)
    requires -LIMIT < amount < LIMIT
    ensures AllProper(ws)
    ensures ws != []
  {
    if amount < 0 then [Minus] + AmountWords(-amount) else AmountWords(amount)
  }

  // ---- the printer, number_to_words_indian ----

  lemma {:induction false} JoinConcat(a: seq<string>, b: seq<string>)
    requires a != [] && b != []
    ensures Join(a + b) == Join(a) + " " + Join(b)
  {
    if |a| == 1 {
      assert (a + b)[1..] == b;
    } else {
      JoinConcat(a[1..], b);
      assert (a + b)[1..] == a[1..] + b;
      assert Join(a + b) == a[0] + " " + (Join(a[1..]) + " " + Join(b));
      assert Join(a) == a[0] + " " + Join(a[1..]);
      assert a[0] + " " + (Join(a[1..]) + " " + Join(b)) == a[0] + " " + Join(a[1..]) + " " + Join(b);
    }
  }

  lemma {:induction false} SpellConcat(a: seq<Word>, b: seq<Word>)
    requires AllProper(a)
    requires AllProper(b)
    ensures SpellAll(a + b) == SpellAll(a) + SpellAll(b)
  {
    if a == [] {
      assert a + b == b;
    } else {
      SpellConcat(a[1..], b);
      assert (a + b)[1..] == a[1..] + b;
    }
  }

  /** The strings gathered so far print like these words. */
  predicate Prints(parts: seq<string>, ws: seq<Word>) {
    && AllProper(ws)
    && (parts == [] <==> ws == [])
    && Join(parts) == Join(SpellAll(ws))
  }

  /** Appending one string that prints like some words, or nothing for no words. */
  lemma PrintsMore(parts: seq<string>, ws: seq<Word>, part: string, more: seq<Word>)
    requires Prints(parts, ws) && AllProper(more) && more != []
    requires part == Join(SpellAll(more))
    ensures Prints(parts + [part], ws + more)
  {
    SpellConcat(ws, more);
    if ws == [] {
      assert parts + [part] == [part] && ws + more == more;
    } else {
      JoinConcat(parts, [part]);
      JoinConcat(SpellAll(ws), SpellAll(more));
    }
  }

  lemma SpellOne(w: Word)
    requires Proper(w)
    ensures Join(SpellAll([w])) == Spell(w)
  {
    assert SpellAll([w]) == [Spell(w)];
  }

  lemma SpellScaled(ws: seq<Word>, w: Word)
    requires AllProper(ws) && Proper(w) && ws != []
    ensures Join(SpellAll(ws + [w])) == Join(SpellAll(ws)) + " " + Spell(w)
  {
    SpellConcat(ws, [w]);
    SpellOne(w);
    JoinConcat(SpellAll(ws), SpellAll([w]));
  }

  lemma SpellHundreds(v: nat)
    requires 100 <= v < 1000
    ensures Join(SpellAll(Hundreds(v))) == UNITS[v / 100] + " Hundred"
  {
    SpellScaled([Unit(v / 100)], Hundred);
    SpellOne(Unit(v / 100));
    assert [Unit(v / 100)] + [Hundred] == Hundreds(v);
    assert UNITS[v / 100] + " " + "Hundred" == UNITS[v / 100] + " Hundred";
  }

  lemma TensStage(parts: seq<string>, ws: seq<Word>, v: nat)
    requires Prints(parts, ws) && v < 100
    ensures v >= 20 ==> Prints(parts + [TENS[v / 10]], ws + TensOrTeen(v))
    ensures 10 <= v < 20 ==> Prints(parts + [TEENS[v - 10]], ws + TensOrTeen(v))
    ensures v < 10 ==> Prints(parts, ws + TensOrTeen(v))
  {
    if v >= 20 {
      SpellOne(Tens(v / 10));
      PrintsMore(parts, ws, TENS[v / 10], TensOrTeen(v));
    } else if v >= 10 {
      SpellOne(Teen(v - 10));
      PrintsMore(parts, ws, TEENS[v - 10], TensOrTeen(v));
    } else {
      assert ws + TensOrTeen(v) == ws;
    }
  }

  /** What the tens and teens leave for the units. */
  function UnitsLeft(v: nat): nat {
    if v >= 20 then v % 10 else if v >= 10 then 0 else v
  }

  lemma OnesOfLeft(v: nat)
    requires v < 100
    ensures UnitsLeft(v) <= 9
    ensures Ones(v) == if UnitsLeft(v) > 0 then [Unit(UnitsLeft(v))] else []
  {
  }

  lemma OnesStage(parts: seq<string>, ws: seq<Word>, v: nat)
    requires Prints(parts, ws) && v < 100
    ensures UnitsLeft(v) <= 9
    ensures UnitsLeft(v) > 0 ==> Prints(parts + [UNITS[UnitsLeft(v)]], ws + Ones(v))
    ensures UnitsLeft(v) == 0 ==> Prints(parts, ws + Ones(v))
  {
    OnesOfLeft(v);
    if UnitsLeft(v) > 0 {
      SpellOne(Unit(UnitsLeft(v)));
      PrintsMore(parts, ws, UNITS[UnitsLeft(v)], Ones(v));
    } else {
      assert ws + Ones(v) == ws;
    }
  }

  lemma HundredsStage(v: nat)
    requires v < 1000
    ensures v >= 100 ==> Prints([UNITS[v / 100] + " Hundred"], Hundreds(v))
    ensures v < 100 ==> Prints([], Hundreds(v))
  {
    if v >= 100 {
      SpellHundreds(v);
      PrintsMore([], [], UNITS[v / 100] + " Hundred", Hundreds(v));
    }
  }

  /** The tens, teens and units of what is left below a hundred. */
  method UnderHundredToWords(parts: seq<string>, v: nat, ghost said: seq<Word>) returns (words: seq<string>)
    requires v < 100 && Prints(parts, said)
    ensures Prints(words, said + TensOrTeen(v) + Ones(v))
  {
    var remainder := v;
    words := parts;
    TensStage(words, said, v);
    if remainder >= 20 {
      words := words + [TENS[remainder / 10]];
      remainder := remainder % 10;
    } else if remainder >= 10 {
      words := words + [TEENS[remainder - 10]];
      remainder := 0;
    }
    assert remainder == UnitsLeft(v);
    OnesStage(words, said + TensOrTeen(v), v);
    if remainder > 0 {
      words := words + [UNITS[remainder]];
    }
  }

  lemma UnderThousandIsSaid(parts: seq<string>, v: nat)
    requires v < 1000 && Prints(parts, Hundreds(v) + TensOrTeen(v % 100) + Ones(v % 100))
    ensures Join(parts) == Join(SpellAll(UnderThousand(v)))
  {
  }

  /** None stands for the IndexError of a value beyond the tables. */
  method UnderThousandToWords(value: nat) returns (r: Option<string>)
    ensures r.Some? <==> value < 1000
    ensures r.Some? ==> r.value == Join(SpellAll(UnderThousand(value)))
  {
    var words: seq<string> := [];
    var remainder := value;
    if remainder >= 100 {
      if remainder / 100 >= |UNITS| {
        return None;
      }
      words := words + [UNITS[remainder / 100] + " Hundred"];
      remainder := remainder % 100;
    }
    HundredsStage(value);
    assert remainder == value % 100;
    words := UnderHundredToWords(words, remainder, Hundreds(value));
    UnderThousandIsSaid(words, value);
    return Some(Join(words));
  }

  const SCALES: seq<(nat, Word, string)> :=
    [(10_000_000, Crore, "Crore"), (100_000, Lakh, "Lakh"), (1_000, Thousand, "Thousand")]

  function Quotient(n: nat, d: nat): nat
    requires d > 0
  {
    n / d
  }

  function Remainder(n: nat, d: nat): nat
    requires d > 0
  {
    n % d
  }

  lemma ScaleIsPositive(k: nat)
    requires k < 3
    ensures SCALES[k].0 >= 1_000
  {
  }

  /** The words of the first k scales. */
  function ScaledWords(r: nat, k: nat): (ws: seq<Word>)
    requires r < LIMIT / 100 && k <= 3
    ensures AllProper(ws)
  {
    (if k >= 1 then Chunk(r / 10_000_000, Crore) else [])
    + (if k >= 2 then Chunk(r % 10_000_000 / 100_000, Lakh) else [])
    + (if k >= 3 then Chunk(r % 100_000 / 1_000, Thousand) else [])
  }

  /** What the first k scales leave over. */
  function LeftOver(r: nat, k: nat): nat
    requires k <= 3
  {
    if k == 0 then r else if k == 1 then r % 10_000_000 else if k == 2 then r % 100_000 else r % 1_000
  }

  lemma NestedRemainders(r: nat)
    ensures r % 10_000_000 % 100_000 == r % 100_000
    ensures r % 100_000 % 1_000 == r % 1_000
  {
  }

  lemma ScaleDivides(r: nat, k: nat)
    requires r < LIMIT / 100 && k < 3
    ensures Quotient(LeftOver(r, k), SCALES[k].0) < 1000
    ensures Remainder(LeftOver(r, k), SCALES[k].0) == LeftOver(r, k + 1)
  {
    NestedRemainders(r);
    if k == 0 {
      assert SCALES[0].0 == 10_000_000;
    } else if k == 1 {
      assert SCALES[1].0 == 100_000;
    } else {
      assert SCALES[2].0 == 1_000;
    }
  }

  lemma ScaleStep(r: nat, k: nat)
    requires r < LIMIT / 100 && k < 3
    ensures Quotient(LeftOver(r, k), SCALES[k].0) < 1000
    ensures Remainder(LeftOver(r, k), SCALES[k].0) == LeftOver(r, k + 1)
    ensures ScaledWords(r, k + 1) == ScaledWords(r, k) + Chunk(Quotient(LeftOver(r, k), SCALES[k].0), SCALES[k].1)
  {
    ScaleDivides(r, k);
    var none: seq<Word> := [];
    if k == 0 {
      assert none + none + none == none;
    }
  }

  lemma ScaleStage(parts: seq<string>, r: nat, k: nat, spelt: string)
    requires r < LIMIT / 100 && k < 3 && Prints(parts, ScaledWords(r, k))
    ensures var chunk := Quotient(LeftOver(r, k), SCALES[k].0);
      && chunk < 1000
      && (chunk == 0 ==> Prints(parts, ScaledWords(r, k + 1)))
      && (chunk > 0 && spelt == Join(SpellAll(UnderThousand(chunk))) ==>
            Prints(parts + [spelt + " " + SCALES[k].2], ScaledWords(r, k + 1)))
  {
    ScaleStep(r, k);
    var chunk := Quotient(LeftOver(r, k), SCALES[k].0);
    if chunk == 0 {
      assert ScaledWords(r, k) + [] == ScaledWords(r, k);
    } else if spelt == Join(SpellAll(UnderThousand(chunk))) {
      SpellScaled(UnderThousand(chunk), SCALES[k].1);
      PrintsMore(parts, ScaledWords(r, k), spelt + " " + SCALES[k].2, Chunk(chunk, SCALES[k].1));
    }
  }

  lemma RupeeWordsSplit(r: nat)
    requires r < LIMIT / 100
    ensures RupeeWords(r) == ScaledWords(r, 3) + UnderThousand(r % 1_000)
    ensures r % 1_000 == 0 ==> RupeeWords(r) == ScaledWords(r, 3)
  {
    if r % 1_000 == 0 {
      assert UnderThousand(0) == [];
    }
  }

  /** The loop over crore, lakh and thousand. */
  method RupeesToWords(rupees: nat) returns (r: Option<seq<string>>)
    ensures r.Some? <==> rupees < LIMIT / 100
    ensures r.Some? ==> Prints(r.value, RupeeWords(rupees))
  {
    var words: seq<string> := [];
    var remainder := rupees;
    for k := 0 to 3
      invariant rupees < LIMIT / 100 || k == 0
      invariant remainder == LeftOver(rupees, k)
      invariant rupees < LIMIT / 100 ==> Prints(words, ScaledWords(rupees, k))
    {
      var (divisor, scale, name) := SCALES[k];
      ScaleIsPositive(k);
      var chunk := Quotient(remainder, divisor);
      remainder := Remainder(remainder, divisor);
      var spelt: Option<string> := Some("");
      if chunk > 0 {
        spelt := UnderThousandToWords(chunk);
        if spelt.None? {
          if rupees < LIMIT / 100 { ScaleStage(words, rupees, k, ""); }
          return None;
        }
      }
      ScaleStage(words, rupees, k, spelt.value);
      ScaleStep(rupees, k);
      if chunk > 0 {
        words := words + [spelt.value + " " + name];
      }
    }
    RupeeWordsSplit(rupees);
    if remainder > 0 {
      var spelt := UnderThousandToWords(remainder);
      PrintsMore(words, ScaledWords(rupees, 3), spelt.value, UnderThousand(remainder));
      words := words + [spelt.value];
    }
    r := Some(words);
  }

  lemma SpellJoined(a: seq<Word>, b: seq<Word>)
    requires AllProper(a) && AllProper(b) && a != [] && b != []
    ensures Join(SpellAll(a + b)) == Join(SpellAll(a)) + " " + Join(SpellAll(b))
  {
    SpellConcat(a, b);
    JoinConcat(SpellAll(a), SpellAll(b));
  }

  lemma AndPaiseText(x: string, y: string)
    ensures x + " " + "and" + " " + y + " " + "Paise" == x + " and " + y + " Paise"
  {
    assert " " + "and" + " " == " and ";
    assert " " + "Paise" == " Paise";
    assert x + " " + "and" + " " == x + " and ";
  }

  lemma MinusSaid(ws: seq<Word>)
    requires AllProper(ws) && ws != []
    ensures Join(SpellAll([Minus] + ws)) == "Minus" + " " + Join(SpellAll(ws))
  {
    SpellOne(Minus);
    SpellJoined([Minus], ws);
  }

  lemma RegroupPaise(a: seq<Word>, b: seq<Word>, c: seq<Word>, d: seq<Word>)
    ensures a + (b + c + d) == a + b + c + d
  {
  }

  lemma AndPaise(said: seq<Word>, small: seq<Word>)
    requires AllProper(said) && AllProper(small) && said != [] && small != []
    ensures Join(SpellAll(said + ([And] + small + [Paise])))
         == Join(SpellAll(said)) + " and " + Join(SpellAll(small)) + " Paise"
  {
    SpellJoined(said, [And]);
    SpellJoined(said + [And], small);
    SpellScaled(said + [And] + small, Paise);
    SpellOne(And);
    RegroupPaise(said, [And], small, [Paise]);
    AndPaiseText(Join(SpellAll(said)), Join(SpellAll(small)));
  }

  /** The sentence built from the printed rupees and, when there are any, the printed paise. */
  function Sentence(rupees: string, small: string, paise: nat): string {
    if paise > 0 then rupees + " " + "Rupees" + " and " + small + " Paise" + " " + "Only"
    else rupees + " " + "Rupees" + " " + "Only"
  }

  lemma Closing(rupees: seq<Word>, small: seq<Word>)
    requires AllProper(rupees) && AllProper(small) && rupees != [] && small != []
    ensures Join(SpellAll(rupees + [Rupees] + ([And] + small + [Paise]) + [Only]))
         == Sentence(Join(SpellAll(rupees)), Join(SpellAll(small)), 1)
  {
    var said := rupees + [Rupees];
    SpellScaled(rupees, Rupees);
    AndPaise(said, small);
    SpellScaled(said + ([And] + small + [Paise]), Only);
  }

  lemma ClosingWithoutPaise(rupees: seq<Word>)
    requires AllProper(rupees) && rupees != []
    ensures Join(SpellAll(rupees + [Rupees] + [Only])) == Sentence(Join(SpellAll(rupees)), "", 0)
  {
    SpellScaled(rupees, Rupees);
    SpellScaled(rupees + [Rupees], Only);
  }

  lemma AmountIsSentence(amount: nat)
    requires amount < LIMIT
    ensures Join(SpellAll(AmountWords(amount)))
         == Sentence(Join(SpellAll(RupeePart(amount))), Join(SpellAll(UnderThousand(amount % 100))), amount % 100)
  {
    var said := RupeePart(amount) + [Rupees];
    if amount % 100 > 0 {
      Closing(RupeePart(amount), UnderThousand(amount % 100));
    } else {
      assert said + PaisePart(amount) == said;
      ClosingWithoutPaise(RupeePart(amount));
    }
  }

  method PositiveToWords(amount: nat) returns (r: Option<string>)
    ensures r.Some? <==> amount < LIMIT
    ensures r.Some? ==> r.value == Join(SpellAll(AmountWords(amount)))
  {
    var rupees := amount / 100;
    var paise := amount % 100;
    var printed := RupeesToWords(rupees);
    if printed.None? {
      return None;
    }
    var words := printed.value;
    RupeesAreSaid(amount, words);
    if words == [] {
      words := words + ["Zero"];
    }
    var small: Option<string> := Some("");
    if paise > 0 {
      small := UnderThousandToWords(paise);
    }
    AmountIsSentence(amount);
    r := Some(Sentence(Join(words), small.value, paise));
  }

  lemma NoRupees()
    ensures RupeeWords(0) == []
  {
  }

  lemma ZeroIsSaid(amount: nat)
    requires amount < 100
    ensures Join(["Zero"]) == Join(SpellAll(RupeePart(amount)))
  {
    SpellOne(Zero);
    assert RupeePart(amount) == [Zero];
  }

  lemma RupeesAreSaid(amount: nat, parts: seq<string>)
    requires amount < LIMIT && Prints(parts, RupeeWords(amount / 100))
    ensures parts == [] <==> amount < 100
    ensures amount < 100 ==> Join(parts + ["Zero"]) == Join(SpellAll(RupeePart(amount)))
    ensures amount >= 100 ==> Join(parts) == Join(SpellAll(RupeePart(amount)))
  {
    if amount < 100 {
      NoRupees();
      ZeroIsSaid(amount);
      assert parts + ["Zero"] == ["Zero"];
    } else {
      assert RupeePart(amount) == RupeeWords(amount / 100);
    }
  }

  function Magnitude(amount: int): nat { if amount < 0 then -amount else amount }

  function WithSign(amount: int, said: string): string { if amount < 0 then "Minus" + " " + said else said }

  lemma SignIsSaid(amount: int, said: string)
    requires -LIMIT < amount < LIMIT && said == Join(SpellAll(AmountWords(Magnitude(amount))))
    ensures WithSign(amount, said) == Join(SpellAll(SignedWords(amount)))
  {
    if amount < 0 { MinusSaid(AmountWords(-amount)); }
  }

  /** The whole printer; a negative amount is printed as "Minus" and its opposite. */
  method NumberToWordsIndian(amount: int) returns (r: Option<string>)
    ensures r.Some? <==> -LIMIT < amount < LIMIT
    ensures r.Some? ==> r.value == Join(SpellAll(SignedWords(amount)))
  {
    r := PositiveToWords(Magnitude(amount));
    if r.Some? {
      SignIsSaid(amount, r.value);
      r := Some(WithSign(amount, r.value));
    }
  }

  // ---- reading the words back ----

  /** s.split(" ") */
  function Split(s: string): (parts: seq<string>)
    ensures parts != []
    decreases |s|
  {
    var k := FirstSpace(s);
    if k == |s| then [s] else [s[..k]] + Split(s[k + 1..])
  }

  function FirstSpace(s: string): (k: nat)
    ensures k <= |s| && (k < |s| ==> s[k] == ' ')
    ensures forall i :: 0 <= i < k ==> s[i] != ' '
  {
    if s == [] || s[0] == ' ' then 0 else 1 + FirstSpace(s[1..])
  }

  /** The first space of a word followed by a space, and of a word alone. */
  lemma FirstSpaceAfter(word: string, rest: string)
    requires ' ' !in word
    ensures FirstSpace(word) == |word|
    ensures FirstSpace(word + " " + rest) == |word|
  {
    var s := word + " " + rest;
    assert s[|word|] == ' ' && forall i :: 0 <= i < |word| ==> s[i] == word[i] && s[i] in word;
    assert forall i :: 0 <= i < |word| ==> word[i] in word;
  }

  lemma SplitFirst(word: string, rest: string)
    requires ' ' !in word
    ensures Split(word + " " + rest) == [word] + Split(rest)
  {
    var s := word + " " + rest;
    FirstSpaceAfter(word, rest);
    assert s[..|word|] == word && s[|word| + 1..] == rest;
  }

  lemma {:induction false} SplitJoin(parts: seq<string>)
    requires parts != [] && forall i :: 0 <= i < |parts| ==> ' ' !in parts[i]
    ensures Split(Join(parts)) == parts
  {
    if |parts| == 1 {
      FirstSpaceAfter(parts[0], "");
    } else {
      SplitJoin(parts[1..]);
      SplitFirst(parts[0], Join(parts[1..]));
      assert parts == [parts[0]] + parts[1..];
    }
  }

  function ReadWord(s: string): Option<Word> {
    if s == "One" then Some(Unit(1)) else if s == "Two" then Some(Unit(2)) else if s == "Three" then Some(Unit(3))
    else if s == "Four" then Some(Unit(4)) else if s == "Five" then Some(Unit(5)) else if s == "Six" then Some(Unit(6))
    else if s == "Seven" then Some(Unit(7)) else if s == "Eight" then Some(Unit(8)) else if s == "Nine" then Some(Unit(9))
    else ReadLargerWord(s)
  }

  function ReadLargerWord(s: string): Option<Word> {
    if s == "Ten" then Some(Teen(0)) else if s == "Eleven" then Some(Teen(1)) else if s == "Twelve" then Some(Teen(2))
    else if s == "Thirteen" then Some(Teen(3)) else if s == "Fourteen" then Some(Teen(4))
    else if s == "Fifteen" then Some(Teen(5)) else if s == "Sixteen" then Some(Teen(6))
    else if s == "Seventeen" then Some(Teen(7)) else if s == "Eighteen" then Some(Teen(8))
    else if s == "Nineteen" then Some(Teen(9))
    else if s == "Twenty" then Some(Tens(2)) else if s == "Thirty" then Some(Tens(3)) else if s == "Forty" then Some(Tens(4))
    else if s == "Fifty" then Some(Tens(5)) else if s == "Sixty" then Some(Tens(6)) else if s == "Seventy" then Some(Tens(7))
    else if s == "Eighty" then Some(Tens(8)) else if s == "Ninety" then Some(Tens(9))
    else ReadKeyword(s)
  }

  function ReadKeyword(s: string): Option<Word> {
    if s == "Hundred" then Some(Hundred) else if s == "Thousand" then Some(Thousand)
    else if s == "Lakh" then Some(Lakh) else if s == "Crore" then Some(Crore)
    else if s == "Zero" then Some(Zero) else if s == "Minus" then Some(Minus)
    else if s == "Rupees" then Some(Rupees) else if s == "and" then Some(And)
    else if s == "Paise" then Some(Paise) else if s == "Only" then Some(Only)
    else None
  }

  lemma ReadUnit(d: nat)
    requires 1 <= d <= 9
    ensures ReadWord(UNITS[d]) == Some(Unit(d)) && ' ' !in UNITS[d]
  {
  }

  lemma ReadTeen(d: nat)
    requires d <= 9
    ensures ReadWord(TEENS[d]) == Some(Teen(d)) && ' ' !in TEENS[d]
  {
    assert ReadWord(TEENS[d]) == ReadLargerWord(TEENS[d]);
  }

  lemma ReadTens(d: nat)
    requires 2 <= d <= 9
    ensures ReadWord(TENS[d]) == Some(Tens(d)) && ' ' !in TENS[d]
  {
    assert ReadWord(TENS[d]) == ReadLargerWord(TENS[d]);
  }

  lemma ReadSpeltKeyword(w: Word)
    requires Proper(w) && !w.Unit? && !w.Teen? && !w.Tens?
    ensures ReadWord(Spell(w)) == Some(w) && ' ' !in Spell(w)
  {
    assert ReadWord(Spell(w)) == ReadLargerWord(Spell(w));
    assert ReadLargerWord(Spell(w)) == ReadKeyword(Spell(w));
  }

  lemma ReadSpelt(w: Word)
    requires Proper(w)
    ensures ReadWord(Spell(w)) == Some(w)
    ensures ' ' !in Spell(w)
  {
    match w
    case Unit(d) => ReadUnit(d);
    case Teen(d) => ReadTeen(d);
    case Tens(d) => ReadTens(d);
    case _ => ReadSpeltKeyword(w);
  }

  function ReadWords(parts: seq<string>): Option<seq<Word>> {
    if parts == [] then Some([])
    else match (ReadWord(parts[0]), ReadWords(parts[1..]))
      case (Some(w), Some(ws)) => Some([w] + ws)
      case _ => None
  }

  lemma {:induction false} ReadSpeltAll(ws: seq<Word>)
    requires AllProper(ws)
    ensures ReadWords(SpellAll(ws)) == Some(ws)
    ensures forall i :: 0 <= i < |ws| ==> ' ' !in SpellAll(ws)[i]
  {
    if ws != [] {
      ReadSpelt(ws[0]);
      ReadSpeltAll(ws[1..]);
      assert SpellAll(ws)[1..] == SpellAll(ws[1..]);
      assert [ws[0]] + ws[1..] == ws;
    }
  }

  /** An abacus: whole chunks so far, and the chunk being read; the result is in paise. */
  function Evaluate(ws: seq<Word>, total: nat, chunk: nat): Option<nat> {
    if ws == [] then None
    else match ws[0]
      case Unit(d) => Evaluate(ws[1..], total, chunk + d)
      case Teen(d) => Evaluate(ws[1..], total, chunk + 10 + d)
      case Tens(d) => Evaluate(ws[1..], total, chunk + 10 * d)
      case Hundred => Evaluate(ws[1..], total, 100 * chunk)
      case Thousand => Evaluate(ws[1..], total + 1_000 * chunk, 0)
      case Lakh => Evaluate(ws[1..], total + 100_000 * chunk, 0)
      case Crore => Evaluate(ws[1..], total + 10_000_000 * chunk, 0)
      case Zero => Evaluate(ws[1..], total, chunk)
      case Rupees => Evaluate(ws[1..], 100 * (total + chunk), 0)
      case And => Evaluate(ws[1..], total, chunk)
      case Paise => Evaluate(ws[1..], total + chunk, 0)
      case Only => if |ws| == 1 then Some(total) else None
      case Minus => None
  }

  function Value(ws: seq<Word>): Option<int> {
    var negative := ws != [] && ws[0] == Minus;
    var read := Evaluate(if negative then ws[1..] else ws, 0, 0);
    if read.None? then None else
    var n: int := read.value;
    Some(if negative then -n else n)
  }

  /** The amount in paise that a printed sentence names. */
  function Decode(s: string): Option<int> {
    var words := ReadWords(Split(s));
    if words.None? then None else Value(words.value)
  }

  lemma EvaluateHundreds(v: nat, tail: seq<Word>, total: nat)
    requires v < 1000
    ensures Evaluate(Hundreds(v) + tail, total, 0) == Evaluate(tail, total, v - v % 100)
  {
    if v >= 100 {
      assert (Hundreds(v) + tail)[1..] == [Hundred] + tail;
      assert ([Hundred] + tail)[1..] == tail;
    } else {
      assert Hundreds(v) + tail == tail;
    }
  }

  lemma EvaluateUnderThousand(v: nat, rest: seq<Word>, total: nat)
    requires v < 1000
    ensures Evaluate(UnderThousand(v) + rest, total, 0) == Evaluate(rest, total, v)
  {
    var u := v % 100;
    Associate(Hundreds(v), TensOrTeen(u) + Ones(u), rest);
    Associate(Hundreds(v), TensOrTeen(u), Ones(u));
    assert UnderThousand(v) + rest == Hundreds(v) + (TensOrTeen(u) + Ones(u) + rest);
    EvaluateHundreds(v, TensOrTeen(u) + Ones(u) + rest, total);
    EvaluateUnderHundred(u, rest, total, v - u);
  }

  lemma EvaluateUnderHundred(u: nat, rest: seq<Word>, total: nat, chunk: nat)
    requires u < 100
    ensures Evaluate(TensOrTeen(u) + Ones(u) + rest, total, chunk) == Evaluate(rest, total, chunk + u)
  {
    var ones := Ones(u) + rest;
    assert TensOrTeen(u) + Ones(u) + rest == TensOrTeen(u) + ones;
    if TensOrTeen(u) != [] {
      assert (TensOrTeen(u) + ones)[1..] == ones;
    } else {
      assert TensOrTeen(u) + ones == ones;
    }
    if Ones(u) != [] {
      assert ones[1..] == rest;
    } else {
      assert ones == rest;
    }
  }

  function Scaled(scale: Word, v: nat): nat {
    match scale case Crore => 10_000_000 * v case Lakh => 100_000 * v case Thousand => 1_000 * v case _ => 0
  }

  lemma EvaluateScale(scale: Word, rest: seq<Word>, total: nat, v: nat)
    requires scale == Crore || scale == Lakh || scale == Thousand
    ensures Evaluate([scale] + rest, total, v) == Evaluate(rest, total + Scaled(scale, v), 0)
  {
    assert ([scale] + rest)[1..] == rest;
  }

  lemma EvaluateChunk(v: nat, scale: Word, rest: seq<Word>, total: nat)
    requires v < 1000 && (scale == Crore || scale == Lakh || scale == Thousand)
    ensures Evaluate(Chunk(v, scale) + rest, total, 0) == Evaluate(rest, total + Scaled(scale, v), 0)
  {
    if v > 0 {
      Associate(UnderThousand(v), [scale], rest);
      EvaluateUnderThousand(v, [scale] + rest, total);
      EvaluateScale(scale, rest, total, v);
    } else {
      assert Chunk(v, scale) + rest == rest;
    }
  }

  /** Words that are worth a whole number of rupees wherever they stand. */
  ghost predicate Adds(ws: seq<Word>, n: nat) {
    forall rest, total: nat :: Evaluate(ws + rest, total, 0) == Evaluate(rest, total + n, 0)
  }

  lemma ChunkAdds(v: nat, scale: Word)
    requires v < 1000 && (scale == Crore || scale == Lakh || scale == Thousand)
    ensures Adds(Chunk(v, scale), Scaled(scale, v))
  {
    forall rest, total: nat ensures Evaluate(Chunk(v, scale) + rest, total, 0) == Evaluate(rest, total + Scaled(scale, v), 0) {
      EvaluateChunk(v, scale, rest, total);
    }
  }

  lemma AddsConcat(a: seq<Word>, m: nat, b: seq<Word>, n: nat)
    requires Adds(a, m) && Adds(b, n)
    ensures Adds(a + b, m + n)
  {
    forall rest, total: nat ensures Evaluate(a + b + rest, total, 0) == Evaluate(rest, total + (m + n), 0) {
      Associate(a, b, rest);
      assert Evaluate(a + (b + rest), total, 0) == Evaluate(b + rest, total + m, 0);
      assert Evaluate(b + rest, total + m, 0) == Evaluate(rest, total + m + n, 0);
    }
  }

  lemma Associate(a: seq<Word>, b: seq<Word>, c: seq<Word>)
    ensures a + b + c == a + (b + c)
  {
  }

  lemma Regroup(a: seq<Word>, b: seq<Word>, c: seq<Word>, d: seq<Word>)
    ensures a + b + c + d == a + (b + (c + d))
  {
  }

  /** Words that are worth a number wherever a chunk begins. */
  ghost predicate Reads(ws: seq<Word>, n: nat) {
    forall rest, total: nat :: Evaluate(ws + rest, total, 0) == Evaluate(rest, total, n)
  }

  lemma UnderThousandReads(v: nat)
    requires v < 1000
    ensures Reads(UnderThousand(v), v)
  {
    forall rest, total: nat ensures Evaluate(UnderThousand(v) + rest, total, 0) == Evaluate(rest, total, v) {
      EvaluateUnderThousand(v, rest, total);
    }
  }

  /** What is left after the chunks, read back in front of the mark. */
  lemma EvaluateTail(head: seq<Word>, total: nat, small: seq<Word>, u: nat, rest: seq<Word>)
    requires Adds(head, total) && Reads(small, u)
    ensures Evaluate(head + small + ([Rupees] + rest), 0, 0) == Evaluate(rest, 100 * (total + u), 0)
  {
    var tail := small + ([Rupees] + rest);
    Associate(head, small, [Rupees] + rest);
    assert Evaluate(head + tail, 0, 0) == Evaluate(tail, total, 0);
    assert Evaluate(tail, total, 0) == Evaluate([Rupees] + rest, total, u);
    EvaluateMark(rest, total, u);
  }

  lemma AddsThree(a: seq<Word>, x: nat, b: seq<Word>, y: nat, c: seq<Word>, z: nat)
    requires Adds(a, x) && Adds(b, y) && Adds(c, z)
    ensures Adds(a + b + c, x + y + z)
  {
    AddsConcat(a, x, b, y);
    AddsConcat(a + b, x + y, c, z);
  }

  /** The rupees that the three scaled parts are worth. */
  function ScaledValue(c: nat, l: nat, t: nat): nat {
    Scaled(Crore, c) + Scaled(Lakh, l) + Scaled(Thousand, t)
  }

  lemma PartsAddUp(r: nat)
    requires r < LIMIT / 100
    ensures var c, l, t, u := r / 10_000_000, r % 10_000_000 / 100_000, r % 100_000 / 1_000, r % 1_000;
      c < 1000 && l < 1000 && t < 1000 && u < 1000 && ScaledValue(c, l, t) + u == r
  {
    NestedRemainders(r);
  }

  lemma ThreeChunksAdd(c: nat, l: nat, t: nat)
    requires c < 1000 && l < 1000 && t < 1000
    ensures Adds(Chunk(c, Crore) + Chunk(l, Lakh) + Chunk(t, Thousand), ScaledValue(c, l, t))
  {
    ChunkAdds(c, Crore);
    ChunkAdds(l, Lakh);
    ChunkAdds(t, Thousand);
    AddsThree(Chunk(c, Crore), Scaled(Crore, c), Chunk(l, Lakh), Scaled(Lakh, l), Chunk(t, Thousand), Scaled(Thousand, t));
  }

  /** The words of some rupees: whole chunks, and what they leave. */
  lemma RupeeWordsParts(r: nat) returns (head: seq<Word>, total: nat, small: seq<Word>, u: nat)
    requires r < LIMIT / 100
    ensures RupeeWords(r) == head + small && Adds(head, total) && Reads(small, u) && total + u == r
  {
    var c, l, t := r / 10_000_000, r % 10_000_000 / 100_000, r % 100_000 / 1_000;
    PartsAddUp(r);
    ThreeChunksAdd(c, l, t);
    UnderThousandReads(r % 1_000);
    head, total := Chunk(c, Crore) + Chunk(l, Lakh) + Chunk(t, Thousand), ScaledValue(c, l, t);
    small, u := UnderThousand(r % 1_000), r % 1_000;
  }

  lemma EvaluateRupees(r: nat, rest: seq<Word>)
    requires r < LIMIT / 100
    ensures Evaluate(RupeeWords(r) + ([Rupees] + rest), 0, 0) == Evaluate(rest, 100 * r, 0)
  {
    var head, total, small, u := RupeeWordsParts(r);
    assert RupeeWords(r) + ([Rupees] + rest) == head + small + ([Rupees] + rest);
    EvaluateTail(head, total, small, u, rest);
  }

  lemma EvaluateMark(rest: seq<Word>, total: nat, v: nat)
    ensures Evaluate([Rupees] + rest, total, v) == Evaluate(rest, 100 * (total + v), 0)
  {
    assert ([Rupees] + rest)[1..] == rest;
  }

  lemma EvaluateClosing(paise: nat)
    ensures Evaluate(PaisePart(paise) + [Only], 100 * (paise / 100), 0) == Some(paise)
  {
    var p := paise % 100;
    if p > 0 {
      var rest := [Paise] + [Only];
      assert PaisePart(paise) + [Only] == [And] + (UnderThousand(p) + rest);
      assert ([And] + (UnderThousand(p) + rest))[1..] == UnderThousand(p) + rest;
      EvaluateUnderThousand(p, rest, 100 * (paise / 100));
      assert rest[1..] == [Only];
    } else {
      assert PaisePart(paise) + [Only] == [Only];
    }
  }

  predicate Minusless(ws: seq<Word>) {
    forall i :: 0 <= i < |ws| ==> ws[i] != Minus
  }

  lemma ChunkHasNoMinus(v: nat, scale: Word)
    requires v < 1000 && Proper(scale) && scale != Minus
    ensures Minusless(UnderThousand(v)) && Minusless(Chunk(v, scale))
  {
    assert Minusless(Hundreds(v)) && Minusless(TensOrTeen(v % 100)) && Minusless(Ones(v % 100));
  }

  lemma MinuslessConcat(a: seq<Word>, b: seq<Word>)
    requires Minusless(a) && Minusless(b)
    ensures Minusless(a + b)
  {
  }

  lemma AmountHasNoMinus(paise: nat)
    requires paise < LIMIT
    ensures Minusless(RupeePart(paise))
  {
    if paise >= 100 {
      var r := paise / 100;
      var c, l, t := Chunk(r / 10_000_000, Crore), Chunk(r % 10_000_000 / 100_000, Lakh), Chunk(r % 100_000 / 1_000, Thousand);
      ChunkHasNoMinus(r / 10_000_000, Crore);
      ChunkHasNoMinus(r % 10_000_000 / 100_000, Lakh);
      ChunkHasNoMinus(r % 100_000 / 1_000, Thousand);
      ChunkHasNoMinus(r % 1_000, Thousand);
      MinuslessConcat(c, l);
      MinuslessConcat(c + l, t);
      MinuslessConcat(c + l + t, UnderThousand(r % 1_000));
    }
  }

  lemma EvaluateZero(rest: seq<Word>)
    ensures Evaluate([Zero] + ([Rupees] + rest), 0, 0) == Evaluate(rest, 0, 0)
  {
    assert ([Zero] + ([Rupees] + rest))[1..] == [Rupees] + rest;
    EvaluateMark(rest, 0, 0);
  }

  lemma EvaluateRupeePart(paise: nat, rest: seq<Word>)
    requires paise < LIMIT
    ensures Evaluate(RupeePart(paise) + ([Rupees] + rest), 0, 0) == Evaluate(rest, 100 * (paise / 100), 0)
  {
    if paise < 100 { EvaluateZero(rest); } else { EvaluateRupees(paise / 100, rest); }
  }

  lemma EvaluateAmount(paise: nat)
    requires paise < LIMIT
    ensures Evaluate(AmountWords(paise), 0, 0) == Some(paise)
    ensures AmountWords(paise)[0] != Minus
  {
    Regroup(RupeePart(paise), [Rupees], PaisePart(paise), [Only]);
    EvaluateRupeePart(paise, PaisePart(paise) + [Only]);
    EvaluateClosing(paise);
    AmountHasNoMinus(paise);
  }

  lemma DecodeSentence(ws: seq<Word>)
    requires AllProper(ws) && ws != []
    ensures Decode(Join(SpellAll(ws))) == Value(ws)
  {
    ReadSpeltAll(ws);
    SplitJoin(SpellAll(ws));
  }

  lemma ValueOfWords(ws: seq<Word>, n: nat)
    requires ws != [] && ws[0] != Minus && Evaluate(ws, 0, 0) == Some(n)
    ensures Value(ws) == Some(n)
    ensures Value([Minus] + ws).Some? && Value([Minus] + ws).value + n == 0
  {
    assert ([Minus] + ws)[1..] == ws;
  }

  /** The printed words determine the amount: reading them back gives it exactly. */
  lemma DecodeSpelt(amount: int)
    requires -LIMIT < amount < LIMIT
    ensures Decode(Join(SpellAll(SignedWords(amount)))) == Some(amount)
  {
    var n := if amount < 0 then -amount else amount;
    EvaluateAmount(n);
    ValueOfWords(AmountWords(n), n);
    DecodeSentence(SignedWords(amount));
  }

  /** Distinct amounts never print the same words. */
  lemma WordsAreInjective(a: int, b: int)
    requires -LIMIT < a < LIMIT && -LIMIT < b < LIMIT && a != b
    ensures Join(SpellAll(SignedWords(a))) != Join(SpellAll(SignedWords(b)))
  {
    DecodeSpelt(a);
    DecodeSpelt(b);
  }
  lemma WordsOfOne()
    ensures UnderThousand(1) == [Unit(1)] && UnderThousand(0) == []
  {
  }

  lemma WordsOfTwentyThree()
    ensures UnderThousand(23) == [Tens(2), Unit(3)]
  {
    assert Hundreds(23) == [] && TensOrTeen(23) == [Tens(2)] && Ones(23) == [Unit(3)];
  }

  lemma OnlyUnits(c: seq<Word>, l: seq<Word>, t: seq<Word>, u: seq<Word>)
    requires c == [] && l == [] && t == []
    ensures c + l + t + u == u
  {
  }

  lemma NoChunk(scale: Word)
    requires Proper(scale)
    ensures Chunk(0, scale) == []
  {
  }

  lemma RupeesOfOne()
    ensures RupeeWords(1) == [Unit(1)]
  {
    NoChunk(Crore);
    NoChunk(Lakh);
    NoChunk(Thousand);
    WordsOfOne();
    OnlyUnits(Chunk(0, Crore), Chunk(0, Lakh), Chunk(0, Thousand), UnderThousand(1));
  }

  lemma SpellCons(w: Word, rest: seq<Word>)
    requires Proper(w) && AllProper(rest) && rest != []
    ensures Join(SpellAll([w] + rest)) == Spell(w) + " " + Join(SpellAll(rest))
  {
    SpellOne(w);
    SpellJoined([w], rest);
  }

  lemma PaiseRead(tail: seq<Word>)
    requires tail == [Tens(2)] + ([Unit(3)] + ([Paise] + [Only]))
    ensures Join(SpellAll(tail)) == "Twenty" + " " + ("Three" + " " + ("Paise" + " " + "Only"))
  {
    SpellCons(Tens(2), [Unit(3)] + ([Paise] + [Only]));
    SpellCons(Unit(3), [Paise] + [Only]);
    SpellCons(Paise, [Only]);
    SpellOne(Only);
  }

  lemma Nested(a: seq<Word>, b: seq<Word>, c: seq<Word>, d: seq<Word>, e: seq<Word>, f: seq<Word>, g: seq<Word>)
    ensures a + b + (c + (d + e) + f) + g == a + (b + (c + (d + (e + (f + g)))))
  {
  }

  lemma PartsOfSum()
    ensures RupeePart(123) == [Unit(1)] && PaisePart(123) == [And] + ([Tens(2)] + [Unit(3)]) + [Paise]
  {
    RupeesOfOne();
    WordsOfTwentyThree();
    assert [Tens(2)] + [Unit(3)] == [Tens(2), Unit(3)];
  }

  lemma WordsOfSum(tail: seq<Word>)
    requires tail == [Tens(2)] + ([Unit(3)] + ([Paise] + [Only]))
    ensures SignedWords(123) == [Unit(1)] + ([Rupees] + ([And] + tail))
  {
    PartsOfSum();
    Nested([Unit(1)], [Rupees], [And], [Tens(2)], [Unit(3)], [Paise], [Only]);
  }

  lemma OpeningReads(tail: seq<Word>)
    requires AllProper(tail) && tail != []
    ensures Join(SpellAll([Unit(1)] + ([Rupees] + ([And] + tail))))
         == "One" + " " + ("Rupees" + " " + ("and" + " " + Join(SpellAll(tail))))
  {
    SpellCons(And, tail);
    SpellCons(Rupees, [And] + tail);
    SpellCons(Unit(1), [Rupees] + ([And] + tail));
  }

  lemma SentenceOf(ws: seq<Word>, tail: seq<Word>)
    requires AllProper(ws) && AllProper(tail) && tail != [] && ws == [Unit(1)] + ([Rupees] + ([And] + tail))
    ensures Join(SpellAll(ws)) == "One" + " " + ("Rupees" + " " + ("and" + " " + Join(SpellAll(tail))))
  {
    OpeningReads(tail);
  }

  /** A printed sentence in full: one rupee and twenty three paise. */
  lemma SentenceReads() returns (paise: string)
    ensures paise == "Twenty" + " " + ("Three" + " " + ("Paise" + " " + "Only"))
    ensures Join(SpellAll(SignedWords(123))) == "One" + " " + ("Rupees" + " " + ("and" + " " + paise))
  {
    var tail := [Tens(2)] + ([Unit(3)] + ([Paise] + [Only]));
    paise := Join(SpellAll(tail));
    PaiseRead(tail);
    WordsOfSum(tail);
    SentenceOf(SignedWords(123), tail);
  }
}
