/** Vocabulary shared by the stores: optional values, digests and the outcome of one durable write. */
module Evidence {

  datatype Option<+T> = None | Some(value: T)

  /** SHA-256 of some content. The constructor is injective, which is all the source uses of the hash. */
  datatype Digest<+T> = Sha256(of: T)

  newtype Byte = x: int | 0 <= x < 256
  type Bytes = seq<Byte>

  /** What happens to one durable filesystem write.
      A failed write changes nothing; a crash ends the process before the write. */
  datatype Fault = Works | Fails | Crashes

  /** Everything from write `n` on works. */
  ghost predicate Calm(faults: nat -> Fault, n: nat) {
    forall k :: k >= n ==> faults(k) == Works
  }

  /** How the last write from `n` up to `m` went, if there was one. */
  ghost function Last(faults: nat -> Fault, n: nat, m: nat): Fault {
    if n < m then faults(m - 1) else Works
  }

  /** From write `n` on at most one fails, and none ends the process. */
  ghost predicate OneFailure(faults: nat -> Fault, n: nat) {
    exists k :: k >= n && faults(k) != Crashes && forall j :: j >= n && j != k ==> faults(j) == Works
  }

  lemma AfterTheFailure(faults: nat -> Fault, n: nat, m: nat)
    requires OneFailure(faults, n) && n <= m
    ensures Last(faults, n, m) != Crashes
    ensures Last(faults, n, m) == Fails ==> Calm(faults, m)
  {}
}
