/** The end of `test_forward`: the polarity of the parity check under
    `has_parity`, and the removal of the temporary directory. The outputs
    themselves (computed by torch and compared with `torch.allclose`) are
    reduced to whether they match. */
module ParityOutcome {
  /** How one run of the test ends: whether it passed, and whether the
      temporary directory was removed. */
  datatype Run = Run(passed: bool, folderRemoved: bool)

  /** Whether the parity check raises. The comparison raises the
      "Parity test failed" assertion exactly when the outputs differ; with
      `has_parity` false it runs inside `assertRaisesRegex`, which raises
      exactly when the comparison did not. */
  function CheckRaises(hasParity: bool, outputsMatch: bool): (r: bool)
    ensures r <==> hasParity != outputsMatch
  {
    var comparisonRaises := !outputsMatch;
    if hasParity then comparisonRaises else !comparisonRaises
  }

  /** `test_forward` as written: the directory is removed by a plain
      statement after the check, so it is reached only when the check did
      not raise. */
  function TestForwardAsWritten(hasParity: bool, outputsMatch: bool): (r: Run)
    ensures r.passed <==> hasParity == outputsMatch
    ensures r.folderRemoved <==> r.passed
  {
    var raises := CheckRaises(hasParity, outputsMatch);
    Run(!raises, !raises)
  }

  /** As written, a failing parity test leaves its directory behind, and so
      does a test marked as having no parity whose outputs match. */
  lemma AsWrittenLeaksOnFailure()
    ensures TestForwardAsWritten(true, false) == Run(false, false)
    ensures TestForwardAsWritten(false, true) == Run(false, false)
  {
  }

  /** `test_forward` with the removal in a `finally` clause: the outcome is
      the same and the directory is always removed. */
  function TestForward(hasParity: bool, outputsMatch: bool): (r: Run)
    ensures r.folderRemoved
    ensures r.passed <==> hasParity == outputsMatch
  {
    Run(!CheckRaises(hasParity, outputsMatch), true)
  }

  /** Moving the removal into a `finally` clause changes no verdict. */
  lemma CorrectedKeepsVerdict(hasParity: bool, outputsMatch: bool)
    ensures TestForward(hasParity, outputsMatch).passed == TestForwardAsWritten(hasParity, outputsMatch).passed
    ensures TestForwardAsWritten(hasParity, outputsMatch).folderRemoved
            == TestForwardAsWritten(hasParity, outputsMatch).passed
  {
  }
}
