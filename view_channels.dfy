/** The "View Channels" flags of the editor window's preview
    (`GenerationWindow.Channel`) and how a new pick updates them. */
module ViewChannels {

  /** The `Channel` flags. */
  const Nothing: bv32 := 0
  const Red: bv32 := 1
  const Green: bv32 := 2
  const Blue: bv32 := 4
  const Alpha: bv32 := 8
  const RGB: bv32 := 7
  const Everything: bv32 := 0xFFFF_FFFF

  /** The visible mask after the flags field returned `picked` in place of
      `current`: toggling Alpha shows Alpha alone; changing any other flag while
      Alpha is shown drops Alpha and keeps the rest; no change keeps the mask. */
  function ViewMaskUpdate(current: bv32, picked: bv32): (m: bv32)
    ensures m == Alpha || m == picked || m == picked & !Alpha
  {
    var changed := current ^ picked;
    if changed & Alpha == Alpha then Alpha
    else if picked & Alpha == Alpha && changed != 0 then picked & !Alpha
    else picked
  }

  /** Toggling Alpha, in either direction, shows Alpha alone. */
  lemma AlphaToggleIsolates(current: bv32, picked: bv32)
    requires current & Alpha != picked & Alpha
    ensures ViewMaskUpdate(current, picked) == Alpha
  {
  }

  /** Changing other flags while Alpha is shown drops Alpha and keeps the pick. */
  lemma OtherChangeDropsAlpha(current: bv32, picked: bv32)
    requires current & Alpha == Alpha && picked & Alpha == Alpha && current != picked
    ensures ViewMaskUpdate(current, picked) & Alpha == 0
    ensures ViewMaskUpdate(current, picked) | Alpha == picked
  {
  }

  /** Without Alpha on either side the pick is taken as it is, and an unchanged
      pick leaves the mask alone. */
  lemma PlainPickKept(current: bv32, picked: bv32)
    ensures picked & Alpha == 0 && current & Alpha == 0 ==> ViewMaskUpdate(current, picked) == picked
    ensures ViewMaskUpdate(picked, picked) == picked
  {
  }

  /** Alpha is never shown together with another channel. */
  predicate AlphaExclusive(m: bv32) {
    m & Alpha == Alpha ==> m == Alpha
  }

  /** The update keeps Alpha exclusive. */
  lemma ViewMaskKeepsAlphaExclusive(current: bv32, picked: bv32)
    requires AlphaExclusive(current)
    ensures AlphaExclusive(ViewMaskUpdate(current, picked))
  {
  }
}
