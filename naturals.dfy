/** The smaller and the larger of two naturals, shared by the cursor, editor and renderer models. */
module Naturals {
  function Min(a: nat, b: nat): nat { if a <= b then a else b }

  function Max(a: nat, b: nat): nat { if a <= b then b else a }
}
