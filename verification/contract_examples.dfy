/** Worked examples of the symbol parsers, on concrete symbols. */
module ContractExamples {
  import opened Wrappers
  import opened Decimal
  import opened Calendar
  import opened ContractSymbol

  /** The date field `250620`: year 25, month 6, day 20. */
  lemma JuneDateField()
    ensures AllDigits("250620")
    ensures DigitsValue("250620"[0..2]) == 25 && DigitsValue("250620"[2..4]) == 6 && DigitsValue("250620"[4..6]) == 20
  {
    assert "250620"[0..2] == "25";
    assert "250620"[2..4] == "06";
    assert "250620"[4..6] == "20";
  }

  /** The date field `250523`: year 25, month 5, day 23. */
  lemma MayDateField()
    ensures AllDigits("250523")
    ensures DigitsValue("250523"[0..2]) == 25 && DigitsValue("250523"[2..4]) == 5 && DigitsValue("250523"[4..6]) == 23
  {
    assert "250523"[0..2] == "25";
    assert "250523"[2..4] == "05";
    assert "250523"[4..6] == "23";
  }

  /** The strike field `00280000`, read one digit at a time. */
  lemma JuneStrikeField()
    ensures AllDigits("00280000") && DigitsValue("00280000") == 280_000
  {
    assert DigitsValue("0") == 0;
    assert "00"[..1] == "0";
    assert DigitsValue("00") == 0;
    assert "002"[..2] == "00";
    assert DigitsValue("002") == 2;
    assert "0028"[..3] == "002";
    assert DigitsValue("0028") == 28;
    assert "00280"[..4] == "0028";
    assert DigitsValue("00280") == 280;
    assert "002800"[..5] == "00280";
    assert DigitsValue("002800") == 2800;
    assert "0028000"[..6] == "002800";
    assert DigitsValue("0028000") == 28000;
    assert "00280000"[..7] == "0028000";
    assert DigitsValue("00280000") == 280000;
  }

  /** The strike field `00315000`, read one digit at a time. */
  lemma MayStrikeField()
    ensures AllDigits("00315000") && DigitsValue("00315000") == 315_000
  {
    assert DigitsValue("0") == 0;
    assert "00"[..1] == "0";
    assert DigitsValue("00") == 0;
    assert "003"[..2] == "00";
    assert DigitsValue("003") == 3;
    assert "0031"[..3] == "003";
    assert DigitsValue("0031") == 31;
    assert "00315"[..4] == "0031";
    assert DigitsValue("00315") == 315;
    assert "003150"[..5] == "00315";
    assert DigitsValue("003150") == 3150;
    assert "0031500"[..6] == "003150";
    assert DigitsValue("0031500") == 31500;
    assert "00315000"[..7] == "0031500";
    assert DigitsValue("00315000") == 315000;
  }

  /** The worked example in contract.ts: a put on TSLA at 280 expiring 2025-06-20. */
  lemma ParseContractExample(symbol: string)
    requires symbol == "TSLA250620P00280000"
    ensures ParseContract(symbol) == Success(Contract("TSLA", Date(2025, 6, 20), Put, 280_000))
  {
    var d, n := "250620", "00280000";
    JuneDateField();
    JuneStrikeField();
    assert ContractOfGroups(Groups("TSLA", d, 'P', n)) == Contract("TSLA", Date(2025, 6, 20), Put, 280_000);
    assert ParseContract(symbol) == Success(ContractOfGroups(Groups("TSLA", d, 'P', n))) by {
      assert AllUpper("TSLA");
      assert symbol == "TSLA" + d + ['P'] + n;
      ParseOfFields(symbol, "TSLA", d, 'P', n);
    }
  }

  /** The worked example in src/utils.ts: a put on TSLA at 315 expiring 2025-05-23;
      the month goes through the zero-based month index and back. */
  lemma ParseContractLineExample(line: string)
    requires line == "TSLA250523P00315000"
    ensures ParseContractLine(line) == Some(Contract("TSLA", Date(2025, 5, 23), Put, 315_000))
  {
    var c := Contract("TSLA", Date(2025, 5, 23), Put, 315_000);
    assert ParseContract(line) == Success(c) by {
      var d, n := "250523", "00315000";
      assert AllUpper("TSLA");
      MayDateField();
      MayStrikeField();
      assert line == "TSLA" + d + ['P'] + n;
      ParseOfFields(line, "TSLA", d, 'P', n);
    }
    LineParserAgrees(line);
  }

  /** A lower-case ticker is rejected: no upper-case letter starts the symbol. */
  lemma LowerCaseTickerRejected(symbol: string)
    requires symbol == "tsla250620P00280000"
    ensures ParseContract(symbol).Failure?
  {
    assert !IsUpper(symbol[0]);
    WellFormedIffMatches(symbol);
  }

  /** A date field one digit short is rejected: an 18-character symbol would need a
      three-letter ticker, but its fourth character is a letter too. */
  lemma ShortDateRejected(symbol: string)
    requires symbol == "TSLA25062P00280000"
    ensures ParseContract(symbol).Failure?
  {
    assert |symbol| == 18 && IsUpper(symbol[3]);
    WellFormedIffMatches(symbol);
  }
}
