/** The errors the scripts raise themselves, and a catch-all for the ones the
    external services raise. */
module Errors {

  datatype Failure =
    | MissingSetting(name: string)   // RuntimeError for a required setting that is unset or empty
    | NoSplits                       // RuntimeError when the PDF produced no chunks
    | ServiceFailure(detail: string) // whatever a vector store, model, loader or parser raised

  /** The text the exception carries (what `print(f"... {e}")` shows). */
  function Message(f: Failure): string {
    match f
    case MissingSetting(name) => "Environment variable " + name + " is not set"
    case NoSplits => "No document splits were created from the PDF."
    case ServiceFailure(detail) => detail
  }

  /** The message of a missing setting names that setting, so different
      settings give different messages. */
  lemma MessageNamesSetting(a: string, b: string)
    ensures Message(MissingSetting(a))[21..21 + |a|] == a
    ensures Message(MissingSetting(a)) == Message(MissingSetting(b)) ==> a == b
  {
    var lead, tail := "Environment variable ", " is not set";
    assert |lead| == 21;
    var ma := Message(MissingSetting(a));
    var mb := Message(MissingSetting(b));
    assert ma == lead + a + tail;
    assert mb == lead + b + tail;
    assert ma[21..21 + |a|] == a;
    if ma == mb {
      assert mb[21..21 + |b|] == b;
    }
  }
}
