/** Character codes and the letters that the readers/writers programs go through. */
module Alphabet {

  const LOWER_A := 97
  const LOWER_Z := 122

  /** The letter after that many writes: 'a' - 1 first, then 'a' .. 'z' in turn. */
  function Letter(writes: nat): int {
    if writes == 0 then LOWER_A - 1 else LOWER_A + (writes - 1) % 26
  }
}
