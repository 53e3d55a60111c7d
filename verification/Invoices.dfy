/** The references of the gateway's invoices. */
module Invoices {

  const REF_PREFIX := "PD-"

  function Ref(token: string): string {
    REF_PREFIX + token
  }

  lemma RefsDiffer(token: string, other: string)
    ensures Ref(token) == Ref(other) <==> token == other
  {
    assert Ref(token)[|REF_PREFIX|..] == token && Ref(other)[|REF_PREFIX|..] == other;
  }
}
