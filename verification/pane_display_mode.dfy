/**
 * The five pane presentations of the navigation view and their stable
 * integer codes, as read from the `paneDisplayMode` layout attribute.
 */
module PaneDisplayModes {

  /** TOP(0), LEFT(1), LEFTCOMPACT(2), LEFTMINIMAL(3), AUTO(4). */
  datatype PaneDisplayMode = Top | Left | LeftCompact | LeftMinimal | Auto {

    /** The integer code of the mode (`getValue`), one of 0 to 4. */
    function GetValue(): (v: int)
      ensures 0 <= v <= 4
    {
      match this
      case Top => 0
      case Left => 1
      case LeftCompact => 2
      case LeftMinimal => 3
      case Auto => 4
    }
  }

  /** The modes in declaration order, as `PaneDisplayMode.values()` returns them. */
  function Values(): (vs: seq<PaneDisplayMode>)
    ensures |vs| == 5
    ensures forall i :: 0 <= i < |vs| ==> vs[i].GetValue() == i
    ensures forall m: PaneDisplayMode :: vs[m.GetValue()] == m
  {
    [Top, Left, LeftCompact, LeftMinimal, Auto]
  }

  /**
   * Constant-time decoding of a code: the mode whose code it is, and AUTO
   * for every code that belongs to no mode.
   */
  function FromCode(code: int): (m: PaneDisplayMode)
    ensures 0 <= code <= 4 ==> m.GetValue() == code
    ensures !(0 <= code <= 4) ==> m == Auto
  {
    match code
    case 0 => Top
    case 1 => Left
    case 2 => LeftCompact
    case 3 => LeftMinimal
    case _ => Auto
  }

  /**
   * `fromInt`: a linear search through `Values()` that returns the first mode
   * whose code equals `code`, and AUTO when the search runs off the end.
   */
  method FromInt(code: int) returns (m: PaneDisplayMode)
    ensures (exists k: PaneDisplayMode :: k.GetValue() == code) ==> m.GetValue() == code
    ensures (forall k: PaneDisplayMode :: k.GetValue() != code) ==> m == Auto
    ensures m == FromCode(code)
  {
    var values := Values();
    var i := 0;
    while i < |values|
      invariant 0 <= i <= |values|
      invariant forall j :: 0 <= j < i ==> values[j].GetValue() != code
    {
      if values[i].GetValue() == code {
        return values[i];
      }
      i := i + 1;
    }
    assert forall k: PaneDisplayMode :: values[k.GetValue()] == k;
    return Auto;
  }

  /** Decoding an encoded mode gives that mode back, for all five modes. */
  lemma CodeRoundTrip(m: PaneDisplayMode)
    ensures FromCode(m.GetValue()) == m
    ensures forall k: PaneDisplayMode :: k.GetValue() == m.GetValue() ==> k == m
  {
    forall k: PaneDisplayMode | k.GetValue() == m.GetValue()
      ensures k == m
    {
      assert FromCode(k.GetValue()) == k;
    }
  }
}
