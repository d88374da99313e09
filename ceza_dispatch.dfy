/** `CEZA.train`: chooses the learning library from the prefix of the
    algorithm string. */
module CezaDispatch {

  /** The training path `train` takes; `Unknown` prints an error message and
      trains nothing. `train` itself returns None on every path. */
  datatype Backend = Tmva | TensorFlow | Unknown

  function Dispatch(algorithms: string): (b: Backend)
    // "TMVA:" is checked first, then "TF:"
    ensures b == Tmva <==> "TMVA:" <= algorithms
    ensures b == TensorFlow ==> "TF:" <= algorithms
    ensures b == Unknown ==> !("TMVA:" <= algorithms) && !("TF:" <= algorithms)
  {
    if "TMVA:" <= algorithms then Tmva
    else if "TF:" <= algorithms then TensorFlow
    else Unknown
  }

  /** No string starts with both prefixes, so the order of the tests does
      not matter: the TF path runs exactly when the string starts with "TF:",
      and every other string trains nothing. */
  lemma DispatchExact(algorithms: string)
    ensures Dispatch(algorithms) == TensorFlow <==> "TF:" <= algorithms
    ensures Dispatch(algorithms) == Unknown <==> !("TMVA:" <= algorithms) && !("TF:" <= algorithms)
  {
    assert "TMVA:" <= algorithms ==> algorithms[1] == "TMVA:"[1] == 'M';
    assert "TF:" <= algorithms ==> algorithms[1] == "TF:"[1] == 'F';
  }

  /** An algorithm string naming neither library, such as "XYZ:FOO", trains
      nothing; neither does a bare "TF" without the colon. */
  lemma UnknownAlgorithms()
    ensures Dispatch("XYZ:FOO") == Unknown
    ensures Dispatch("TF") == Unknown
    ensures Dispatch("TMVA:BDT") == Tmva
    ensures Dispatch("TF:VOXNET") == TensorFlow
  {
    assert "XYZ:FOO"[0] == 'X';
    assert !("TF:" <= "TF");
    assert "TF:VOXNET"[1] != "TMVA:"[1];
    assert "TF:VOXNET"[..3] == "TF:";
  }
}
