/** Machine words, slot identifiers, and a few notions that several components share. */
module Common {
  const LIMIT16: int := 0x1_0000
  const LIMIT32: int := 0x1_0000_0000
  const LIMIT64: int := 0x1_0000_0000_0000_0000

  /** Entries of the buffers that the ext2 server collects the blocks of a file in. */
  const MAX_BLOCKS: nat := 4096

  datatype Option<T> = None | Some(value: T)

  /** No element occurs twice. */
  ghost predicate Distinct<T>(s: seq<T>) {
    forall i, j :: 0 <= i < j < |s| ==> s[i] != s[j]
  }

  // ---- Slots ---------------------------------------------------------------------------------

  /** Slots count how often they were freed in 16 bits. */
  const GENERATIONS: nat := 0x1_0000

  lemma NextGeneration(n: nat)
    ensures (n % GENERATIONS + 1) % GENERATIONS == (n + 1) % GENERATIONS
  {
  }

  /** A slot that was freed n times in all has the generation it had when it was freed m times
      exactly if that lies a multiple of 65536 back. */
  lemma SameGeneration(m: nat, n: nat)
    requires m <= n
    ensures m % GENERATIONS == n % GENERATIONS <==> (n - m) % GENERATIONS == 0
  {
    assert n == n / GENERATIONS * GENERATIONS + n % GENERATIONS;
    assert m == m / GENERATIONS * GENERATIONS + m % GENERATIONS;
  }

  /** An identifier is a 32-bit word: its low byte is a slot, the two bytes above it a generation. */
  function MakeId(slot: nat, gen: nat): int { slot + 256 * gen }

  function SlotOf(id: int): nat { id % 256 }

  function GenOf(id: int): nat { id / 256 % GENERATIONS }

  lemma IdRoundTrip(slot: nat, gen: nat)
    requires slot < 256 && gen < GENERATIONS
    ensures SlotOf(MakeId(slot, gen)) == slot && GenOf(MakeId(slot, gen)) == gen
  {
  }
}
