/** What a hash slinger is: a map from digest to a counted object head. */
module HeadIndex {
  import opened DigestBits

  datatype Entry = Entry(oh: nat, refcnt: nat)
  type Index = map<Digest, Entry>

  /** Find the head for `d` and take a reference, or install `noh`, which brings one of its own. */
  function Lookup(ix: Index, d: Digest, noh: nat): (r: (Index, nat)) {
    if d in ix then (ix[d := ix[d].(refcnt := ix[d].refcnt + 1)], ix[d].oh)
    else (ix[d := Entry(noh, 1)], noh)
  }

  /** Drop a reference; the last one takes the head out. */
  function Deref(ix: Index, d: Digest): Index
    requires d in ix && ix[d].refcnt > 0
  {
    if ix[d].refcnt == 1 then ix - {d} else ix[d := ix[d].(refcnt := ix[d].refcnt - 1)]
  }
}
