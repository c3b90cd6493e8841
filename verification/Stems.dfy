/** The verb stems after which an attached `می` or `نمی` is taken for a prefix. */
module Stems {
  import Text
  import opened Rewriting
  import opened Stages

  const ROW_1: seq<string> := ["شود", "شوم", "شوی", "شویم", "شوید", "شوند"]
  const ROW_2: seq<string> := ["شد", "شدم", "شدی", "شدیم", "شدید", "شدند"]
  const ROW_3: seq<string> := ["کند", "کنم", "کنی", "کنیم", "کنید", "کنند"]
  const ROW_4: seq<string> := ["کرد", "کردم", "کردی", "کردیم", "کردید", "کردند"]
  const ROW_5: seq<string> := ["رود", "روم", "روی", "رویم", "روید", "روند"]
  const ROW_6: seq<string> := ["رفت", "رفتم", "رفتی", "رفتیم", "رفتید", "رفتند"]
  const ROW_7: seq<string> := ["آید", "آیم", "آیی", "آییم", "آیید", "آیند"]
  const ROW_8: seq<string> := ["آمد", "آمدم", "آمدی", "آمدیم", "آمدید", "آمدند"]
  const ROW_9: seq<string> := ["تواند", "توانم", "توانی", "توانیم", "توانید", "توانند"]
  const ROW_10: seq<string> := ["توانست", "توانستم", "توانستند", "گیرد", "گیرم", "گیری"]
  const ROW_11: seq<string> := ["گیریم", "گیرید", "گیرند", "گرفت", "گرفتم", "گرفتیم"]
  const ROW_12: seq<string> := ["گرفتند", "دهد", "دهم", "دهی", "دهیم", "دهید"]
  const ROW_13: seq<string> := ["دهند", "داد", "دادم", "دادیم", "دادند", "داند"]
  const ROW_14: seq<string> := ["دانم", "دانی", "دانیم", "دانید", "دانند", "دانست"]
  const ROW_15: seq<string> := ["دانستم", "دانستند", "خواهد", "خواهم", "خواهی", "خواهیم"]
  const ROW_16: seq<string> := ["خواهید", "خواهند", "خواست", "خواستم", "خواستند", "بیند"]
  const ROW_17: seq<string> := ["بینم", "بینی", "بینیم", "بینید", "بینند", "دید"]
  const ROW_18: seq<string> := ["دیدم", "دیدیم", "دیدند", "گوید", "گویم", "گویی"]
  const ROW_19: seq<string> := ["گوییم", "گویید", "گویند", "گفت", "گفتم", "گفتیم"]
  const ROW_20: seq<string> := ["گفتند", "ماند", "مانم", "مانیم", "مانند", "ماندم"]
  const ROW_21: seq<string> := ["رسد", "رسم", "رسیم", "رسند", "رسید", "رسیدم"]
  const ROW_22: seq<string> := ["رسیدند", "باشد", "باشم", "باشی", "باشیم", "باشید"]
  const ROW_23: seq<string> := ["باشند", "شناسد", "شناسم", "شناسیم", "شناسند", "شناخت"]
  const ROW_24: seq<string> := ["فرستد", "فرستم", "فرستیم", "فرستند", "فرستاد", "فرستادم"]
  const ROW_25: seq<string> := ["فرستادند", "پذیرد", "پذیرم", "پذیریم", "پذیرند", "پذیرفت"]
  const ROW_26: seq<string> := ["افتد", "افتم", "افتیم", "افتند", "افتاد", "خورد"]
  const ROW_27: seq<string> := ["خورم", "خوریم", "خورند", "برد", "برم", "بریم"]
  const ROW_28: seq<string> := ["برند", "بردم", "بندد", "بندم", "بندیم", "بندند"]
  const ROW_29: seq<string> := ["بست", "نویسد", "نویسم", "نویسیم", "نویسند", "نوشت"]

  const ROWS: seq<seq<string>> := [
    ROW_1, ROW_2, ROW_3, ROW_4, ROW_5, ROW_6, ROW_7, ROW_8, ROW_9, ROW_10,
    ROW_11, ROW_12, ROW_13, ROW_14, ROW_15, ROW_16, ROW_17, ROW_18, ROW_19, ROW_20,
    ROW_21, ROW_22, ROW_23, ROW_24, ROW_25, ROW_26, ROW_27, ROW_28, ROW_29
  ]

  const VERB_STEMS: seq<string> := Text.Flatten(ROWS)

  lemma {:induction false} FlattenGood(rows: seq<seq<string>>)
    requires forall i | 0 <= i < |rows| :: GoodStems(rows[i])
    ensures GoodStems(Text.Flatten(rows))
  {
    if rows != [] {
      forall i | 0 <= i < |rows[1..]| ensures GoodStems(rows[1..][i]) { assert rows[1..][i] == rows[i + 1]; }
      FlattenGood(rows[1..]);
      assert GoodStems(rows[0]);
    }
  }

  /** A word whose first two letters are those of neither prefix. */
  ghost predicate StartsPlain(w: string) {
    |w| >= 2 && All(Arabic, w) && (w[0] != MI[0] || w[1] != MI[1]) && (w[0] != NEMI[0] || w[1] != NEMI[1])
  }

  lemma {:induction false} PlainHasNoPrefix(w: string)
    requires StartsPlain(w)
    ensures PrefixLength(w) == 0
  {
  }

  lemma {:induction false} SixPlain(row: seq<string>)
    requires |row| == 6 && StartsPlain(row[0]) && StartsPlain(row[1]) && StartsPlain(row[2])
    requires StartsPlain(row[3]) && StartsPlain(row[4]) && StartsPlain(row[5])
    ensures GoodStems(row)
  {
    forall i | 0 <= i < 6 ensures StartsPlain(row[i]) && PrefixLength(row[i]) == 0 { PlainHasNoPrefix(row[i]); }
  }

  // A few rows of the table at a time: the first two letters of each of their stems.

  lemma {:induction false} Rows1To3()
    ensures GoodStems(ROW_1) && GoodStems(ROW_2) && GoodStems(ROW_3)
  {
    assert GoodStems(ROW_1) by { SixPlain(ROW_1); }
    assert GoodStems(ROW_2) by { SixPlain(ROW_2); }
    assert GoodStems(ROW_3) by { SixPlain(ROW_3); }
  }

  lemma {:induction false} Rows4To6()
    ensures GoodStems(ROW_4) && GoodStems(ROW_5) && GoodStems(ROW_6)
  {
    assert GoodStems(ROW_4) by { SixPlain(ROW_4); }
    assert GoodStems(ROW_5) by { SixPlain(ROW_5); }
    assert GoodStems(ROW_6) by { SixPlain(ROW_6); }
  }

  lemma {:induction false} Rows7To9()
    ensures GoodStems(ROW_7) && GoodStems(ROW_8) && GoodStems(ROW_9)
  {
    assert GoodStems(ROW_7) by { SixPlain(ROW_7); }
    assert GoodStems(ROW_8) by { SixPlain(ROW_8); }
    assert GoodStems(ROW_9) by { SixPlain(ROW_9); }
  }

  lemma {:induction false} Rows10To12()
    ensures GoodStems(ROW_10) && GoodStems(ROW_11) && GoodStems(ROW_12)
  {
    assert GoodStems(ROW_10) by { SixPlain(ROW_10); }
    assert GoodStems(ROW_11) by { SixPlain(ROW_11); }
    assert GoodStems(ROW_12) by { SixPlain(ROW_12); }
  }

  lemma {:induction false} Rows13To15()
    ensures GoodStems(ROW_13) && GoodStems(ROW_14) && GoodStems(ROW_15)
  {
    assert GoodStems(ROW_13) by { SixPlain(ROW_13); }
    assert GoodStems(ROW_14) by { SixPlain(ROW_14); }
    assert GoodStems(ROW_15) by { SixPlain(ROW_15); }
  }

  lemma {:induction false} Rows16To18()
    ensures GoodStems(ROW_16) && GoodStems(ROW_17) && GoodStems(ROW_18)
  {
    assert GoodStems(ROW_16) by { SixPlain(ROW_16); }
    assert GoodStems(ROW_17) by { SixPlain(ROW_17); }
    assert GoodStems(ROW_18) by { SixPlain(ROW_18); }
  }

  lemma {:induction false} Rows19To21()
    ensures GoodStems(ROW_19) && GoodStems(ROW_20) && GoodStems(ROW_21)
  {
    assert GoodStems(ROW_19) by { SixPlain(ROW_19); }
    assert GoodStems(ROW_20) by { SixPlain(ROW_20); }
    assert GoodStems(ROW_21) by { SixPlain(ROW_21); }
  }

  lemma {:induction false} Rows22To24()
    ensures GoodStems(ROW_22) && GoodStems(ROW_23) && GoodStems(ROW_24)
  {
    assert GoodStems(ROW_22) by { SixPlain(ROW_22); }
    assert GoodStems(ROW_23) by { SixPlain(ROW_23); }
    assert GoodStems(ROW_24) by { SixPlain(ROW_24); }
  }

  lemma {:induction false} Rows25To27()
    ensures GoodStems(ROW_25) && GoodStems(ROW_26) && GoodStems(ROW_27)
  {
    assert GoodStems(ROW_25) by { SixPlain(ROW_25); }
    assert GoodStems(ROW_26) by { SixPlain(ROW_26); }
    assert GoodStems(ROW_27) by { SixPlain(ROW_27); }
  }

  lemma {:induction false} Rows28To29()
    ensures GoodStems(ROW_28) && GoodStems(ROW_29)
  {
    assert GoodStems(ROW_28) by { SixPlain(ROW_28); }
    assert GoodStems(ROW_29) by { SixPlain(ROW_29); }
  }

  /** No stem begins with `می` or `نمی`, and each has at least two letters. */
  lemma {:induction false} VerbStemsAreGood()
    ensures GoodStems(VERB_STEMS)
  {
    Rows1To3(); Rows4To6(); Rows7To9(); Rows10To12(); Rows13To15();
    Rows16To18(); Rows19To21(); Rows22To24(); Rows25To27(); Rows28To29();
    FlattenGood(ROWS);
  }
}
