/**
  The player component (src/components/player.rs): a `u16` health value
  with saturating damage, and the movement intent the server stores beside it.
 */
module Players {

  /** Rust's `u16`. */
  type U16 = x: int | 0 <= x < 0x1_0000

  /** Health of a new or respawned player. */
  const MAX_HP: U16 := 100

  /** `hp.saturating_sub(damage)`: subtraction that stops at zero instead of wrapping. */
  function HurtHp(hp: U16, damage: U16): (r: U16)
    ensures r <= hp
    ensures r == 0 <==> damage >= hp
    ensures r != 0 ==> r + damage == hp
  {
    if damage >= hp then 0 else hp - damage
  }

  predicate IsDead(hp: U16) {
    hp == 0
  }

  /** Health after `n` hits of `damage` each. */
  ghost function HurtTimes(hp: U16, damage: U16, n: nat): U16 {
    if n == 0 then hp else HurtHp(HurtTimes(hp, damage, n - 1), damage)
  }

  /** Saturating damage adds up: `n` hits take `n * damage`, down to zero and no further. */
  lemma {:induction false} HurtTimesSaturates(hp: U16, damage: U16, n: nat)
    ensures HurtTimes(hp, damage, n) == if n * damage >= hp then 0 else hp - n * damage
  {
    if n > 0 {
      HurtTimesSaturates(hp, damage, n - 1);
      assert n * damage == (n - 1) * damage + damage;
      assert (n - 1) * damage >= hp ==> n * damage >= hp;
    }
  }

  /** A hit never heals, and a hit at least as large as the health kills. */
  lemma HurtNeverHeals(hp: U16, damage: U16)
    ensures HurtHp(hp, damage) <= hp
    ensures damage >= hp ==> IsDead(HurtHp(hp, damage))
    ensures damage > 0 && hp > 0 ==> HurtHp(hp, damage) < hp
  {
  }

  /** The directional flags and the one-shot jump request of a player. */
  datatype MoveState = MoveState(forward: bool, back: bool, left: bool, right: bool, jump: bool)

  const NO_MOVES := MoveState(false, false, false, false, false)

  /**
    The server's merge of a received move state into the stored one: the
    received flags replace the stored ones, except that a jump that is
    already pending is kept.
   */
  function MergeMoves(pending: MoveState, received: MoveState): (r: MoveState)
    ensures r.jump <==> pending.jump || received.jump
    ensures r.forward == received.forward && r.back == received.back
    ensures r.left == received.left && r.right == received.right
  {
    var jumping := pending.jump;
    received.(jump := jumping || received.jump)
  }

  /** A pending jump survives any number of merges; the directional flags are those of the last one. */
  lemma MergeKeepsPendingJump(pending: MoveState, first: MoveState, second: MoveState)
    ensures pending.jump ==> MergeMoves(MergeMoves(pending, first), second).jump
    ensures MergeMoves(MergeMoves(pending, first), second) == MergeMoves(pending, MergeMoves(first, second))
    ensures MergeMoves(MergeMoves(pending, first), first) == MergeMoves(pending, first)
  {
  }

  /** The value of the `Player` component as the world stores and the network carries it. */
  datatype PlayerState = PlayerState(hp: U16, moves: MoveState)

  /** `Player::new()`. */
  const NEW_PLAYER := PlayerState(MAX_HP, NO_MOVES)

  /** The health operations of src/components/player.rs on a mutable player. */
  class Player {
    var hp: U16

    constructor ()
      ensures hp == MAX_HP && !Dead()
    {
      hp := MAX_HP;
    }

    method Hurt(damage: U16)
      modifies this
      ensures hp == HurtHp(old(hp), damage)
    {
      hp := HurtHp(hp, damage);
    }

    predicate Dead()
      reads this
    {
      IsDead(hp)
    }

    method ResetHp()
      modifies this
      ensures hp == MAX_HP && !Dead()
    {
      hp := MAX_HP;
    }
  }
}
