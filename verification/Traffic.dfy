/** Byte counts in the two directions of a user's traffic. */
module Traffic {

  datatype Direction = Sent | Recv

  function Other(d: Direction): Direction {
    if d == Sent then Recv else Sent
  }

  datatype Delta = Delta(sent: int, recv: int) {

    function At(d: Direction): int {
      if d == Sent then sent else recv
    }

    function With(d: Direction, n: int): Delta {
      if d == Sent then Delta(n, recv) else Delta(sent, n)
    }

    predicate IsZero() {
      sent == 0 && recv == 0
    }

    function Total(): int {
      sent + recv
    }
  }

  /** `n` bytes in direction `d`, none in the other. */
  function Only(d: Direction, n: int): Delta {
    if d == Sent then Delta(n, 0) else Delta(0, n)
  }
}
