/** The employee identifier format: `ATS0` followed by three digits that are
    not all zero (`ATS0001` .. `ATS0999`). */
module EmployeeIds {
  import opened Text

  predicate StartsWith(s: string, prefix: string) {
    |prefix| <= |s| && s[..|prefix|] == prefix
  }

  /** `\d{n}$`: exactly `n` digits and then the end of the input. */
  function MatchDigits(s: string, n: nat): (m: bool)
    ensures m <==> |s| == n && AllDigits(s)
    decreases n
  {
    if n == 0 then s == []
    else |s| > 0 && IsDigit(s[0]) && MatchDigits(s[1..], n - 1)
  }

  /** The regular expression `^ATS0(?!000)\d{3}$`, matched in the order it
      reads: the literal `ATS0`, the lookahead refusing `000`, then exactly
      three digits up to the end of the input. */
  function ValidateEmployeeId(id: string): (ok: bool)
    ensures ok <==>
      && |id| == 7
      && id[0] == 'A' && id[1] == 'T' && id[2] == 'S' && id[3] == '0'
      && IsDigit(id[4]) && IsDigit(id[5]) && IsDigit(id[6])
      && !(id[4] == '0' && id[5] == '0' && id[6] == '0')
  {
    && StartsWith(id, "ATS0")
    && !StartsWith(id[4..], "000")
    && MatchDigits(id[4..], 3)
  }

  /** A valid identifier is also a word (`^\w+$`), which is why the listing's
      identifier filter is accepted exactly when it is a word. */
  lemma ValidIdIsWord(id: string)
    requires ValidateEmployeeId(id)
    ensures IsWord(id)
  {
  }

  /** The identifiers named by the format's description. */
  lemma EmployeeIdExamples()
    ensures ValidateEmployeeId("ATS0001") && ValidateEmployeeId("ATS0123") && ValidateEmployeeId("ATS0999")
    ensures !ValidateEmployeeId("ATS0000")
    ensures !ValidateEmployeeId("ATS01") && !ValidateEmployeeId("ATS01234")
    ensures !ValidateEmployeeId("XTS0123") && !ValidateEmployeeId("ats0123") && !ValidateEmployeeId("ATS1123")
    ensures !ValidateEmployeeId(" ATS0123") && !ValidateEmployeeId("ATS0123 ") && !ValidateEmployeeId("ATS012a")
  {
  }
}
