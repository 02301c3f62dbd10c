/** The nonce and signature rules of SimpleAccount, on top of BaseAccount. */
module SimpleAccounts {
  import opened Evm
  import opened UserOperations
  import opened Validation

  datatype Account = Account(nonce: uint96, owner: Address)

  const MAX_NONCE: uint96 := TWO_96 - 1

  /** The selector of `validateUserOp`. */
  const VALIDATE_USER_OP: seq<byte> := [0x3a, 0x87, 0x1c, 0xdd]

  /** Whether a call with this data runs the account's `validateUserOp`. */
  predicate SelectsValidateUserOp(callData: seq<byte>) {
    |callData| >= 4 && callData[..4] == VALIDATE_USER_OP
  }

  /**
   * What `validateUserOp` does to the account when the entry point calls it: the returned word and the new
   * account, or the reason of the revert. `signer` is the answer of ECDSA.recover, None when it reverts.
   */
  function ValidateUserOp(account: Account, nonce: uint256, creating: bool, signer: Option<Address>)
    : Result<(Account, uint256), Option<string>>
  {
    if signer == None then Err(Some("ECDSA: invalid signature"))
    else
      var word := if account.owner != signer.value then SIG_VALIDATION_FAILED else 0;
      if creating then Ok((account, word))
      else if account.nonce == MAX_NONCE then Err(None)
      else if account.nonce != nonce then Err(Some("account: invalid nonce"))
      else Ok((account.(nonce := account.nonce + 1), word))
  }

  /** The account contract: its storage, and the methods that write it. */
  class SimpleAccount {
    var nonce: uint96
    var owner: Address
    const entryPoint: Address

    constructor (entryPoint: Address, owner: Address)
      ensures this.entryPoint == entryPoint && View() == Account(0, owner)
    {
      this.entryPoint := entryPoint;
      this.owner := owner;
      nonce := 0;
    }

    function View(): Account
      reads this
    {
      Account(nonce, owner)
    }

    /** A revert undoes the increment, so a failed call leaves the account as it was. */
    method ValidateAndUpdateNonce(opNonce: uint256) returns (error: Option<Option<string>>)
      modifies this`nonce
      ensures error == None ==> old(nonce) == opNonce && nonce == old(nonce) + 1
      ensures error != None ==> nonce == old(nonce) && (opNonce != old(nonce) || old(nonce) == MAX_NONCE)
      ensures error != None ==> error == Some(if old(nonce) == MAX_NONCE then None else Some("account: invalid nonce"))
    {
      var before := nonce;
      if nonce == MAX_NONCE {
        return Some(None);
      }
      nonce := nonce + 1;
      if before != opNonce {
        nonce := before;
        return Some(Some("account: invalid nonce"));
      }
      return None;
    }

    method Validate(caller: Address, op: UserOperation, signer: Option<Address>)
      returns (result: Result<uint256, Option<string>>)
      modifies this`nonce
      ensures caller != entryPoint ==> result == Err(Some("account: not from EntryPoint")) && View() == old(View())
      ensures caller == entryPoint ==>
                match ValidateUserOp(old(View()), op.nonce, |op.initCode| != 0, signer)
                case Ok(r) => result == Ok(r.1) && View() == r.0
                case Err(reason) => result == Err(reason) && View() == old(View())
    {
      if caller != entryPoint {
        return Err(Some("account: not from EntryPoint"));
      }
      if signer == None {
        return Err(Some("ECDSA: invalid signature"));
      }
      var word := if owner != signer.value then SIG_VALIDATION_FAILED else 0;
      if |op.initCode| == 0 {
        var error := ValidateAndUpdateNonce(op.nonce);
        if error != None {
          return Err(error.value);
        }
      }
      return Ok(word);
    }
  }
}
