/** Which fields, in which order and width, make up the binary forms that are signed or hashed. */
module Layouts {
  import opened Basics
  import opened Wire
  import opened Accounts
  import opened Validators
  import opened Votes

  /** A number is written most significant byte first (Wire.BigEndian), in front of the rest. */
  lemma Numbers(rest: Bytes)
    ensures forall n: u16 :: PutU16(n, rest) == BE(n, 2) + rest
    ensures forall n: u32 :: PutU32(n, rest) == BE(n, 4) + rest
    ensures forall n: u64 :: PutU64(n, rest) == BE(n, 8) + rest
    ensures forall n: Amount :: PutAmount(n, rest) == BE(n, 16) + rest
  {
    hide BE;
  }

  lemma OneByte(b: byte, rest: Bytes)
    ensures PutU8(b, rest) == [b] + rest
  {
    assert BE(b / 256, 0) == [];
  }

  /** An account takes 144 bytes: address, balance, nonce, storage root, code hash, permissions, public key. */
  lemma AccountLayout(a: Account, rest: Bytes)
    ensures PutAccount(a, rest) ==
            a.address + (BE(a.balance, 16) + (BE(a.nonce, 8) + (a.storageRoot + (a.codeHash + (BE(a.permissions, 4) + (a.publicKey + rest))))))
  {
    hide BE, PutAmount, PutU64, PutU32;
    var r6 := a.publicKey + rest;
    Numbers(r6);
    var r3 := a.storageRoot + (a.codeHash + (BE(a.permissions, 4) + r6));
    Numbers(r3);
    Numbers(BE(a.nonce, 8) + r3);
  }

  /** A vote is signed over 65 bytes: type, height, round, block hash, validator. */
  lemma SignBytesLayout(v: Vote)
    ensures SignBytes(v) == [v.voteType] + (BE(v.height, 8) + (BE(v.round, 4) + (v.blockHash + v.validator)))
    ensures |SignBytes(v)| == 65
  {
    hide BE, PutU8, PutU64, PutU32;
    var r3 := v.blockHash + v.validator;
    assert v.validator + [] == v.validator;
    Numbers(r3);
    Numbers(BE(v.round, 4) + r3);
    OneByte(v.voteType, BE(v.height, 8) + (BE(v.round, 4) + r3));
  }

  /** The last 35 bytes of a validator: status, commission, power and three epochs. */
  ghost function Figures(v: Validator, rest: Bytes): Bytes
  {
    [StatusCode(v.status)] + (BE(v.commission, 2) + (BE(v.power, 8) +
    (BE(v.jailedUntil, 8) + (BE(v.activationEpoch, 8) + (BE(v.unstakeEpoch, 8) + rest)))))
  }

  lemma FiguresLayout(v: Validator, rest: Bytes)
    ensures PutU8(StatusCode(v.status), PutU16(v.commission, PutU64(v.power, PutU64(v.jailedUntil,
            PutU64(v.activationEpoch, PutU64(v.unstakeEpoch, rest)))))) == Figures(v, rest)
  {
    hide BE, PutU8, PutU64, PutU16;
    var r5 := BE(v.unstakeEpoch, 8) + rest;
    var r4 := BE(v.activationEpoch, 8) + r5;
    var r3 := BE(v.jailedUntil, 8) + r4;
    var r2 := BE(v.power, 8) + r3;
    Numbers(rest);
    Numbers(r5);
    Numbers(r4);
    Numbers(r3);
    Numbers(r2);
    OneByte(StatusCode(v.status), BE(v.commission, 2) + r2);
  }

  /** A validator takes 143 bytes: ID, key, operator, reward address and stake, then the figures. */
  lemma ValidatorLayout(v: Validator, rest: Bytes)
    ensures PutValidator(v, rest) ==
            v.consensusID + (v.publicKey + (v.operator + (v.reward + (BE(v.bonded, 16) + Figures(v, rest)))))
    ensures StatusCode(Pending) == 0 && StatusCode(Active) == 1 && StatusCode(Jailed) == 2
    ensures StatusCode(Unstaking) == 3 && StatusCode(Removed) == 4
  {
    hide BE, PutAmount, PutU8, PutU64, PutU16, Figures;
    FiguresLayout(v, rest);
    Numbers(Figures(v, rest));
  }
}
