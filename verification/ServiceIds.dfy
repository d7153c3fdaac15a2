/** The identifiers of accounts. */
module ServiceIds {

  type Aci = nat
  type Pni = nat

  /** A member is named by an ACI; an invitation may name an ACI or a PNI. */
  datatype ServiceId = OfAci(aci: Aci) | OfPni(pni: Pni)
}
