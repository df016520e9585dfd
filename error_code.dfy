/**
 * WebSocket close codes Shiny Server uses to tell clients whether to
 * reconnect to the same session or restart a new one.
 */
module ErrorCode {

  /** The hundreds block a flag combination selects. */
  function Block(allowReconnect: bool, allowRestart: bool): int
  {
    if !allowReconnect && !allowRestart then 4500
    else if allowReconnect && allowRestart then 4600
    else if !allowReconnect && allowRestart then 4700
    else 4000
  }

  function Abs(x: int): nat
  {
    if x < 0 then -x else x
  }

  /** `closureCode`: an out-of-range base is replaced by |base| mod 100. */
  function ClosureCode(baseNum: int, allowReconnect: bool, allowRestart: bool): (code: int)
    ensures 4000 <= code <= 4799
    ensures code == Block(allowReconnect, allowRestart) + NormalBase(baseNum)
  {
    var b := if baseNum < 0 || baseNum > 99 then Abs(baseNum) % 100 else baseNum;
    if !allowReconnect && !allowRestart then b + 4500
    else if allowReconnect && allowRestart then b + 4600
    else if !allowReconnect && allowRestart then b + 4700
    else 4000 + b
  }

  const ACCESS_DENIED: int := ClosureCode(0, false, false)
  const OUT_OF_CAPACITY: int := ClosureCode(1, false, false)
  const SHUTTING_DOWN: int := ClosureCode(2, false, true)
  const APP_EXIT: int := ClosureCode(3, false, false)
  const BAD_PROTOCOL: int := ClosureCode(4, false, true)
  const BAD_IDENTIFIER: int := ClosureCode(5, false, true)
  const RETIRED: int := ClosureCode(6, false, false)

  /** The four flag combinations select 45xx, 46xx, 47xx and 40xx respectively. */
  lemma FlagBlocks(b: int)
    requires 0 <= b <= 99
    ensures ClosureCode(b, false, false) == 4500 + b
    ensures ClosureCode(b, true, true) == 4600 + b
    ensures ClosureCode(b, false, true) == 4700 + b
    ensures ClosureCode(b, true, false) == 4000 + b
  {
  }

  /** The base number a call actually uses. */
  function NormalBase(baseNum: int): (b: nat)
    ensures b <= 99
  {
    if 0 <= baseNum <= 99 then baseNum else Abs(baseNum) % 100
  }

  /**
   * Two calls give the same code exactly when they use the same base and
   * the same block, so distinct bases within a block never collide.
   */
  lemma ClosureCodeInjective(b1: int, r1: bool, s1: bool, b2: int, r2: bool, s2: bool)
    ensures (ClosureCode(b1, r1, s1) == ClosureCode(b2, r2, s2))
              == (NormalBase(b1) == NormalBase(b2) && Block(r1, s1) == Block(r2, s2))
  {
    var c1 := ClosureCode(b1, r1, s1);
    var c2 := ClosureCode(b2, r2, s2);
    assert c1 == Block(r1, s1) + NormalBase(b1);
    assert c2 == Block(r2, s2) + NormalBase(b2);
  }

  /** The seven exported codes, with their values, are pairwise distinct. */
  lemma ExportedCodes()
    ensures ACCESS_DENIED == 4500 && OUT_OF_CAPACITY == 4501 && SHUTTING_DOWN == 4702
    ensures APP_EXIT == 4503 && BAD_PROTOCOL == 4704 && BAD_IDENTIFIER == 4705 && RETIRED == 4506
    ensures var codes := [ACCESS_DENIED, OUT_OF_CAPACITY, SHUTTING_DOWN, APP_EXIT, BAD_PROTOCOL, BAD_IDENTIFIER, RETIRED];
            forall i, j :: 0 <= i < j < |codes| ==> codes[i] != codes[j]
  {
    FlagBlocks(0);
    FlagBlocks(1);
    FlagBlocks(2);
    FlagBlocks(3);
    FlagBlocks(4);
    FlagBlocks(5);
    FlagBlocks(6);
  }
}
