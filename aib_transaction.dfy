/** The converter from one row of an AIB (Allied Irish Banks) CSV export to a
    transaction record: it splits the row on commas, cleans the description,
    reconciles the debit and credit columns into one signed amount, and decides
    once whether the transaction is hidden from the ledger. */
module AIBTransaction {
  import opened Wrappers
  import opened GoStrings

  /** A calendar date; the time of day is always midnight in the source. */
  datatype Date = Date(year: int, month: int, day: int)

  /** What the converter calls but does not define, passed in as values.
      `parseDate` is `time.Parse("02/01/06", ·)`, `parseFloat` is
      `strconv.ParseFloat(·, 32)` (with its float32 rounding), and `classify`
      is the category lookup keyed on the cleaned description. */
  datatype Collaborators = Collaborators(
    parseDate: string -> Option<Date>,
    parseFloat: string -> Option<real>,
    classify: string -> string)

  /** One converted row. `realDate` is never assigned and so stays empty. */
  datatype Transaction = Transaction(
    id: string,
    realDate: string,
    completedDate: Date,
    details: string,
    amount: real,
    balance: string,
    source: string,
    isHidden: bool)

  /** The three errors of the amount reconciliation. */
  datatype AmountError =
    | BothPresent              // both the debit and the credit column hold text
    | NeitherPresent           // both columns are empty
    | Unparseable(text: string) // the one present column is not a number

  /** Why a row could not be converted. The source aborts the process on the
      last two and panics on the first (a row with too few fields). */
  datatype RowError =
    | MalformedRow
    | MalformedDate(text: string)
    | MalformedAmount(cause: AmountError)

  const Source: string := "AIB"

  // ---------------------------------------------------------------------
  // Debit/credit reconciliation

  /** Money out (a debit) is positive and money in (a credit) negative.
      Exactly one of the two columns must hold text, and that text must parse. */
  function ParseAmount(debit: string, credit: string, parseFloat: string -> Option<real>)
    : (r: Result<real, AmountError>)
    ensures r.Success? <==>
              (debit == "") != (credit == "") &&
              parseFloat(if debit != "" then debit else credit).Some?
    ensures r.Success? && debit != "" ==> r.value == parseFloat(debit).value
    ensures r.Success? && credit != "" ==> r.value == -parseFloat(credit).value
    ensures r == Failure(BothPresent) <==> debit != "" && credit != ""
    ensures r == Failure(NeitherPresent) <==> debit == "" && credit == ""
    ensures r.Failure? && r.error.Unparseable? ==>
              r.error.text != "" && (r.error.text == debit || r.error.text == credit) &&
              parseFloat(r.error.text).None?
  {
    if debit != "" && credit != "" then
      Failure(BothPresent)
    else if debit != "" then
      match parseFloat(debit)
      case None => Failure(Unparseable(debit))
      case Some(v) => Success(v)
    else if credit != "" then
      match parseFloat(credit)
      case None => Failure(Unparseable(credit))
      case Some(v) => Success(if v != 0.0 then -1.0 * v else v)
    else
      Failure(NeitherPresent)
  }

  /** The same text in the credit column instead of the debit column parses
      exactly when it did there, to the opposite amount. */
  lemma CreditIsNegatedDebit(text: string, parseFloat: string -> Option<real>)
    requires text != ""
    ensures ParseAmount(text, "", parseFloat).Success? == ParseAmount("", text, parseFloat).Success?
    ensures ParseAmount(text, "", parseFloat).Success? ==>
              ParseAmount("", text, parseFloat).value == -ParseAmount(text, "", parseFloat).value
  {
  }

  // ---------------------------------------------------------------------
  // Visibility

  /** The Revolut top-up descriptions: four literal prefixes and one exact
      match, all case-sensitive. */
  predicate IsRevolutTopUp(details: string)
    ensures IsRevolutTopUp(details) ==> "VDP-Revolut" <= details || "VDP-REVOLUT*" <= details
  {
    "VDP-Revolut**" <= details ||
    "VDP-Revolut* - " <= details ||
    "VDP-Revolut  - " <= details ||
    "VDP-REVOLUT*" <= details ||
    details == "VDP-Revolut"
  }

  /** The hide rules, one per test of the source, in the source's order. */
  datatype HideRule = ZeroAmount | RevolutTopUp | InetSavings | RentAt600 | TransferAt10

  const SourceOrder: seq<HideRule> := [ZeroAmount, RevolutTopUp, InetSavings, RentAt600, TransferAt10]

  predicate Fires(rule: HideRule, amount: real, details: string)
  {
    match rule
    case ZeroAmount => amount == 0.0
    case RevolutTopUp => IsRevolutTopUp(details)
    case InetSavings => "*INET SAVINGS " <= details
    case RentAt600 => amount == 600.0 && ("*INET RENT " <= details || "*INET DAVID " <= details)
    case TransferAt10 => amount == 10.0 && details == "931365 22689017"
  }

  /** The source's chain of early returns. Since every rule answers "hide",
      the result is the plain disjunction of the rules. */
  function ShouldHide(amount: real, details: string): (r: bool)
    ensures r <==> exists rule: HideRule :: Fires(rule, amount, details)
  {
    if amount == 0.0 then
      assert Fires(ZeroAmount, amount, details); true
    else if IsRevolutTopUp(details) then
      assert Fires(RevolutTopUp, amount, details); true
    else if "*INET SAVINGS " <= details then
      assert Fires(InetSavings, amount, details); true
    else if amount == 600.0 && ("*INET RENT " <= details || "*INET DAVID " <= details) then
      assert Fires(RentAt600, amount, details); true
    else if amount == 10.0 && details == "931365 22689017" then
      assert Fires(TransferAt10, amount, details); true
    else
      false
  }

  /** Evaluates `rules` in order and stops at the first that fires. */
  function FirstMatchHides(rules: seq<HideRule>, amount: real, details: string): (r: bool)
    ensures r <==> exists i :: 0 <= i < |rules| && Fires(rules[i], amount, details)
  {
    if |rules| == 0 then false
    else if Fires(rules[0], amount, details) then true
    else
      var r := FirstMatchHides(rules[1..], amount, details);
      assert forall i :: 1 <= i < |rules| ==> rules[i] == rules[1..][i - 1];
      r
  }

  /** Any order of evaluating the rules, the source's among them, gives the
      same verdict as `ShouldHide`. */
  lemma HideOrderIrrelevant(rules: seq<HideRule>, amount: real, details: string)
    requires forall rule: HideRule :: rule in rules
    ensures FirstMatchHides(rules, amount, details) == ShouldHide(amount, details)
  {
    if ShouldHide(amount, details) {
      var rule: HideRule :| Fires(rule, amount, details);
      assert rule in rules;
      var i :| 0 <= i < |rules| && rules[i] == rule;
    }
  }

  /** Zero amounts, top-ups and savings transfers are hidden whatever the
      other field holds. */
  lemma AmountIndependentRules(amount: real, details: string)
    requires amount == 0.0 || IsRevolutTopUp(details) || "*INET SAVINGS " <= details
    ensures ShouldHide(amount, details)
  {
    if amount == 0.0 {
      assert Fires(ZeroAmount, amount, details);
    } else if IsRevolutTopUp(details) {
      assert Fires(RevolutTopUp, amount, details);
    } else {
      assert Fires(InetSavings, amount, details);
    }
  }

  /** A rent or DAVID transfer is hidden only for a debit of exactly 600 (or
      a zero amount). */
  lemma RentHiddenOnlyAt600(amount: real, details: string)
    requires "*INET RENT " <= details || "*INET DAVID " <= details
    ensures ShouldHide(amount, details) <==> amount == 0.0 || amount == 600.0
  {
    assert details[0] == '*' && details[6] != 'S';
    assert !IsRevolutTopUp(details);
    assert !("*INET SAVINGS " <= details);
    if amount == 600.0 {
      assert Fires(RentAt600, amount, details);
    }
    if amount == 0.0 {
      assert Fires(ZeroAmount, amount, details);
    }
  }

  /** Every description rule looks for a leading `V` or `*`; without one, and
      with an amount the amount rules do not name, the row is shown. */
  lemma OrdinaryRowVisible(amount: real, details: string)
    requires amount != 0.0 && amount != 600.0 && amount != 10.0
    requires details == [] || (details[0] != 'V' && details[0] != '*')
    ensures !ShouldHide(amount, details)
  {
    assert forall p: string :: |p| > 0 && p <= details ==> details[0] == p[0];
    assert "VDP-Revolut"[0] == 'V' && "VDP-REVOLUT*"[0] == 'V' && "*INET "[0] == '*';
  }

  /** The transfer `931365 22689017` is hidden only for a debit of exactly 10
      (or a zero amount). */
  lemma TransferHiddenOnlyAt10(amount: real)
    ensures ShouldHide(amount, "931365 22689017") <==> amount == 0.0 || amount == 10.0
  {
    var d := "931365 22689017";
    assert d[0] == '9';
    assert !IsRevolutTopUp(d);
    if amount == 10.0 {
      assert Fires(TransferAt10, amount, d);
    }
    if amount == 0.0 {
      assert Fires(ZeroAmount, amount, d);
    }
  }

  /** A credit of 10.00 to `931365 22689017` becomes -10 and stays visible:
      the 10 rule sees the signed amount. */
  lemma CreditOfTenStaysVisible(parseFloat: string -> Option<real>)
    requires parseFloat("10.00") == Some(10.0)
    ensures ParseAmount("", "10.00", parseFloat) == Success(-10.0)
    ensures !ShouldHide(-10.0, "931365 22689017")
  {
    TransferHiddenOnlyAt10(-10.0);
  }

  // ---------------------------------------------------------------------
  // Description cleaning

  /** Spaces are trimmed before the quotes are deleted, so the spaces inside
      a quoted description survive. */
  lemma QuotedDetailsKeepInnerSpaces(inner: string)
    requires '"' !in inner
    ensures RemoveAll(Trim("\"" + inner + "\"", ' '), '"') == inner
  {
    var q := "\"" + inner + "\"";
    assert AllAre("", ' ');
    assert "" + q + "" == q;
    TrimExact("", q, "", ' ');
    RemoveAllConcat("\"" + inner, "\"", '"');
    RemoveAllConcat("\"", inner, '"');
    RemoveAllAbsent(inner, '"');
  }

  // ---------------------------------------------------------------------
  // Row conversion

  /** Converts one raw row. The checks happen in the source's order: the
      date field must exist and parse, the description and both amount
      columns must exist, the amount must reconcile, and the balance field
      must exist; fields after the balance are ignored. */
  method NewAIBTransaction(rawData: string, env: Collaborators)
    returns (r: Result<Transaction, RowError>)
    ensures var data := Split(rawData, ',');
      r.Success? <==>
        |data| >= 6 && env.parseDate(data[1]).Some? &&
        ParseAmount(data[3], data[4], env.parseFloat).Success?
    ensures var data := Split(rawData, ',');
      r == Failure(MalformedRow) <==>
        |data| < 2 ||
        (env.parseDate(data[1]).Some? &&
         (|data| < 5 || (|data| == 5 && ParseAmount(data[3], data[4], env.parseFloat).Success?)))
    ensures var data := Split(rawData, ',');
      |data| >= 2 && env.parseDate(data[1]).None? ==> r == Failure(MalformedDate(data[1]))
    ensures var data := Split(rawData, ',');
      |data| >= 5 && env.parseDate(data[1]).Some? &&
      ParseAmount(data[3], data[4], env.parseFloat).Failure? ==>
        r == Failure(MalformedAmount(ParseAmount(data[3], data[4], env.parseFloat).error))
    ensures var data := Split(rawData, ',');
      r.Success? ==>
        var t := r.value;
        env.parseDate(data[1]) == Some(t.completedDate) &&
        t.details == RemoveAll(Trim(data[2], ' '), '"') &&
        ParseAmount(data[3], data[4], env.parseFloat) == Success(t.amount) &&
        t.balance == data[5] &&
        t.source == Source &&
        t.realDate == "" &&
        t.isHidden == ShouldHide(t.amount, t.details) &&
        t.id == env.classify(t.details)
    ensures r.Success? ==>
      '"' !in r.value.details && ',' !in r.value.details &&
      (r.value.amount == 0.0 ==> r.value.isHidden)
  {
    var data := Split(rawData, ',');

    if |data| < 2 {
      return Failure(MalformedRow);
    }
    var transactionDate := env.parseDate(data[1]);
    if transactionDate.None? {
      return Failure(MalformedDate(data[1]));
    }
    var completedDate := transactionDate.value;

    if |data| < 3 {
      return Failure(MalformedRow);
    }
    var details := Trim(data[2], ' ');
    details := RemoveAll(details, '"');

    if |data| < 5 {
      return Failure(MalformedRow);
    }
    var amount := ParseAmount(data[3], data[4], env.parseFloat);
    if amount.Failure? {
      return Failure(MalformedAmount(amount.error));
    }

    if |data| < 6 {
      return Failure(MalformedRow);
    }
    var balance := data[5];
    var source := Source;
    var isHidden := ShouldHide(amount.value, details);
    var id := env.classify(details);

    assert ',' !in data[2];
    r := Success(Transaction(id, "", completedDate, details, amount.value, balance, source, isHidden));
  }
}

/** Rows worked through the converter, with the collaborators fixed only on
    the inputs that matter. */
module AIBExamples {
  import opened Wrappers
  import opened GoStrings
  import opened AIBTransaction

  /** A row given by its fields, none holding a comma, splits back into them
      and its description cleans to `inner`. */
  lemma RowFacts(fields: seq<string>, inner: string)
    requires |fields| >= 6 && forall i :: 0 <= i < |fields| ==> ',' !in fields[i]
    requires '"' !in inner && fields[2] == "\"" + inner + "\""
    ensures Split(Join(fields, ','), ',') == fields
    ensures RemoveAll(Trim(fields[2], ' '), '"') == inner
  {
    SplitJoin(fields, ',');
    QuotedDetailsKeepInnerSpaces(inner);
  }

  /** A row `f0,date,"inner",debit,credit,balance` followed by any further
      fields, where no field holds a comma and the quoted description holds no
      further quote: the description is kept exactly as written between the
      quotes, inner spaces included, and the further fields play no part. */
  method ConvertQuotedRow(f0: string, date: string, inner: string, debit: string,
                          credit: string, balance: string, extra: seq<string>,
                          env: Collaborators)
    returns (t: Transaction)
    requires ',' !in f0 && ',' !in date && ',' !in inner
    requires ',' !in debit && ',' !in credit && ',' !in balance
    requires forall i :: 0 <= i < |extra| ==> ',' !in extra[i]
    requires '"' !in inner
    requires env.parseDate(date).Some?
    requires ParseAmount(debit, credit, env.parseFloat).Success?
    ensures t.details == inner && t.completedDate == env.parseDate(date).value
    ensures t.amount == ParseAmount(debit, credit, env.parseFloat).value
    ensures t.balance == balance && t.isHidden == ShouldHide(t.amount, inner)
  {
    var quoted := "\"" + inner + "\"";
    assert ',' !in quoted;
    var fields := [f0, date, quoted, debit, credit, balance] + extra;
    forall i | 0 <= i < |fields|
      ensures ',' !in fields[i]
    {
      if i >= 6 {
        assert fields[i] == extra[i - 6];
      }
    }
    assert fields[1] == date && fields[2] == quoted && fields[3] == debit;
    assert fields[4] == credit && fields[5] == balance;
    RowFacts(fields, inner);
    var r := NewAIBTransaction(Join(fields, ','), env);
    t := r.value;
  }

  /** `,05/03/24," Test Shop ",12.50,,1000.00`: a quoted description keeps
      the spaces inside its quotes, and a plain debit is kept as it is and
      shown. */
  method ConvertTestShopRow(env: Collaborators) returns (t: Transaction)
    requires env.parseDate("05/03/24") == Some(Date(2024, 3, 5))
    requires env.parseFloat("12.50") == Some(12.5)
    ensures t.details == " Test Shop " && t.amount == 12.5 && !t.isHidden
    ensures t.completedDate == Date(2024, 3, 5) && t.balance == "1000.00"
  {
    assert " Test Shop "[0] == ' ';
    OrdinaryRowVisible(12.5, " Test Shop ");
    t := ConvertQuotedRow("", "05/03/24", " Test Shop ", "12.50", "", "1000.00", [], env);
  }

  /** `,01/01/24,"*INET SAVINGS X",,50.00,900.00`: a credit becomes negative,
      and a savings transfer is hidden whatever its sign. */
  method ConvertSavingsCreditRow(env: Collaborators) returns (t: Transaction)
    requires env.parseDate("01/01/24").Some?
    requires env.parseFloat("50.00") == Some(50.0)
    ensures t.details == "*INET SAVINGS X" && t.amount == -50.0 && t.isHidden
  {
    AmountIndependentRules(-50.0, "*INET SAVINGS X");
    t := ConvertQuotedRow("", "01/01/24", "*INET SAVINGS X", "", "50.00", "900.00", [], env);
  }

  /** `,01/01/24,"931365 22689017",,10.00,900.00`: the credit of 10 becomes
      -10, which the 10 rule does not match, so the row is shown. */
  method ConvertTransferCreditRow(env: Collaborators) returns (t: Transaction)
    requires env.parseDate("01/01/24").Some?
    requires env.parseFloat("10.00") == Some(10.0)
    ensures t.details == "931365 22689017" && t.amount == -10.0 && !t.isHidden
  {
    CreditOfTenStaysVisible(env.parseFloat);
    t := ConvertQuotedRow("", "01/01/24", "931365 22689017", "", "10.00", "900.00", [], env);
  }
}
