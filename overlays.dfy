/**
 Overlay element ids of the viewer component.

 Each child rendered over the viewer gets a container element whose id is
 the text "Overlay" followed by the child's key, interpolated into a template
 string. A child without a key has the key `null`, which interpolates as the
 text "null".
 */
module Overlays {

  /** A child's key: a string, or absent (`null`). */
  datatype ChildKey = NoKey | Key(name: string)

  const OverlayPrefix := "Overlay"

  /** The key as a template string renders it. */
  function KeyText(key: ChildKey): string {
    match key
    case NoKey => "null"
    case Key(name) => name
  }

  /** Every id starts with the prefix, and the rendered key can be read back from what follows it. */
  function OverlayId(key: ChildKey): (id: string)
    ensures |id| >= |OverlayPrefix|
    ensures id[..|OverlayPrefix|] == OverlayPrefix
    ensures id[|OverlayPrefix|..] == KeyText(key)
  {
    OverlayPrefix + KeyText(key)
  }

  /** Distinct string keys get distinct ids. */
  lemma OverlayIdInjective(a: string, b: string)
    requires OverlayId(Key(a)) == OverlayId(Key(b))
    ensures a == b
  {
    assert a == OverlayId(Key(a))[|OverlayPrefix|..];
  }

  /** A child without a key gets the same id as a child whose key is the string "null". */
  lemma MissingKeyCollides()
    ensures OverlayId(NoKey) == OverlayId(Key("null"))
  {
  }
}
