/** How each line of the two example input files reads: a date token, one blank and a decimal
    value with one fraction digit. */
module ExampleLines {
  import opened Wrappers
  import opened Observations
  import opened LineParser

  lemma NormalLine1()
    ensures var date, gap, number := "2020-01-01", " ", "15" + "." + "0";
      ParseLine(date + gap + number) == Some(Observation(date, 15.0))
  {
    assert ReadNumber("15" + "." + "0") == Some(15.0) by {
      assert DigitsValue("15") == 15 by {
        assert "15"[..1] == "1" && "1"[..0] == "";
      }
      assert FractionValue("0") == 0.0 by {
        assert "0"[1..] == "";
      }
      DecimalNumber("15", "0");
    }
    ReadsAs("2020-01-01", " ", "15" + "." + "0", 15.0);
  }

  lemma NormalLine2()
    ensures var date, gap, number := "2020-01-02", " ", "85" + "." + "0";
      ParseLine(date + gap + number) == Some(Observation(date, 85.0))
  {
    assert ReadNumber("85" + "." + "0") == Some(85.0) by {
      assert DigitsValue("85") == 85 by {
        assert "85"[..1] == "8" && "8"[..0] == "";
      }
      assert FractionValue("0") == 0.0 by {
        assert "0"[1..] == "";
      }
      DecimalNumber("85", "0");
    }
    ReadsAs("2020-01-02", " ", "85" + "." + "0", 85.0);
  }

  lemma NormalLine3()
    ensures var date, gap, number := "2020-01-03", " ", "50" + "." + "0";
      ParseLine(date + gap + number) == Some(Observation(date, 50.0))
  {
    assert ReadNumber("50" + "." + "0") == Some(50.0) by {
      assert DigitsValue("50") == 50 by {
        assert "50"[..1] == "5" && "5"[..0] == "";
      }
      assert FractionValue("0") == 0.0 by {
        assert "0"[1..] == "";
      }
      DecimalNumber("50", "0");
    }
    ReadsAs("2020-01-03", " ", "50" + "." + "0", 50.0);
  }

  lemma DroughtLine1()
    ensures var date, gap, number := "2020-01-01", " ", "5" + "." + "0";
      ParseLine(date + gap + number) == Some(Observation(date, 5.0))
  {
    assert ReadNumber("5" + "." + "0") == Some(5.0) by {
      assert DigitsValue("5") == 5 by {
        assert "5"[..0] == "";
      }
      assert FractionValue("0") == 0.0 by {
        assert "0"[1..] == "";
      }
      DecimalNumber("5", "0");
    }
    ReadsAs("2020-01-01", " ", "5" + "." + "0", 5.0);
  }

  lemma DroughtLine2()
    ensures var date, gap, number := "2020-01-02", " ", "10" + "." + "0";
      ParseLine(date + gap + number) == Some(Observation(date, 10.0))
  {
    assert ReadNumber("10" + "." + "0") == Some(10.0) by {
      assert DigitsValue("10") == 10 by {
        assert "10"[..1] == "1" && "1"[..0] == "";
      }
      assert FractionValue("0") == 0.0 by {
        assert "0"[1..] == "";
      }
      DecimalNumber("10", "0");
    }
    ReadsAs("2020-01-02", " ", "10" + "." + "0", 10.0);
  }
}
