/** The search worker: validate the pattern, then draw wallets until one has an
    address that carries the requested prefix and suffix, and post it.

    The wallet source is a foreign library; here it is the sequence of draws the
    caller supplies, each either a wallet or the message of the exception the
    draw raised. The real loop never runs out of wallets; when the supplied
    sequence does, the worker has posted nothing yet (`NoMessage`). */
module AddressWorker {
  import opened Hex

  /** What the page sends to a worker. */
  datatype Pattern = Pattern(prefix: string, suffix: string, caseSensitive: bool)

  /** The three hex strings a random wallet exposes. */
  datatype Wallet = Wallet(address: string, publicKey: string, privateKey: string)

  /** One call of the wallet source: a wallet, or an exception with its message. */
  datatype Draw = Drawn(wallet: Wallet) | Threw(message: string)

  /** What the worker posts back, if anything. */
  datatype Message =
    | Result(address: string, publicKey: string, privateKey: string)
    | Error(error: string)
    | NoMessage

  const InvalidHexMessage: string := "Invalid hex values"

  /** `String.prototype.startsWith`. */
  predicate StartsWith(s: string, p: string) {
    |p| <= |s| && s[..|p|] == p
  }

  /** `String.prototype.endsWith`. */
  predicate EndsWith(s: string, p: string) {
    |p| <= |s| && s[|s| - |p|..] == p
  }

  /** The prefix test: the address starts with `0x` followed by the prefix,
      compared exactly or after lower-casing both sides. */
  predicate MatchesPrefix(address: string, prefix: string, caseSensitive: bool)
    ensures MatchesPrefix(address, prefix, caseSensitive) ==>
              2 + |prefix| <= |address| && address[0] == '0'
  {
    if caseSensitive then StartsWith(address, "0x" + prefix)
    else StartsWith(ToLower(address), "0x" + ToLower(prefix))
  }

  /** The suffix test, with the same choice of case handling. */
  predicate MatchesSuffix(address: string, suffix: string, caseSensitive: bool)
    ensures MatchesSuffix(address, suffix, caseSensitive) ==> |suffix| <= |address|
    ensures suffix == [] ==> MatchesSuffix(address, suffix, caseSensitive)
  {
    if caseSensitive then EndsWith(address, suffix)
    else EndsWith(ToLower(address), ToLower(suffix))
  }

  /** An address is accepted when every non-empty part of the pattern matches. */
  predicate Satisfies(address: string, pat: Pattern)
    ensures pat.prefix == [] && pat.suffix == [] ==> Satisfies(address, pat)
    ensures Satisfies(address, pat) && pat.prefix != [] ==> 2 + |pat.prefix| <= |address|
    ensures Satisfies(address, pat) ==> |pat.suffix| <= |address|
  {
    && (pat.prefix == [] || MatchesPrefix(address, pat.prefix, pat.caseSensitive))
    && (pat.suffix == [] || MatchesSuffix(address, pat.suffix, pat.caseSensitive))
  }

  /** The first `n` draws all produced wallets, and none of them was accepted. */
  predicate RejectedAll(draws: seq<Draw>, n: int, pat: Pattern)
    requires n <= |draws|
  {
    forall j :: 0 <= j < n ==> draws[j].Drawn? && !Satisfies(draws[j].wallet.address, pat)
  }

  /** The message handler of the worker. `drawn` is the number of draws it consumed. */
  method OnMessage(pat: Pattern, draws: seq<Draw>) returns (msg: Message, drawn: nat)
    ensures drawn <= |draws|
    // invalid hex: the error is posted before any wallet is drawn
    ensures !(IsValidHex(pat.prefix) && IsValidHex(pat.suffix)) ==>
              msg == Error(InvalidHexMessage) && drawn == 0
    // valid hex: everything drawn before the last draw was a wallet that failed the pattern
    ensures IsValidHex(pat.prefix) && IsValidHex(pat.suffix) ==>
              (msg.NoMessage? ==> drawn == |draws| && RejectedAll(draws, |draws|, pat))
              && (!msg.NoMessage? ==> 1 <= drawn && RejectedAll(draws, drawn - 1, pat))
    // a posted result is the last wallet drawn, whole, and it satisfies the pattern
    ensures msg.Result? ==>
              1 <= drawn
              && draws[drawn - 1] == Drawn(Wallet(msg.address, msg.publicKey, msg.privateKey))
              && Satisfies(msg.address, pat)
    // a posted exception message comes from the last draw
    ensures IsValidHex(pat.prefix) && IsValidHex(pat.suffix) && msg.Error? ==>
              1 <= drawn && draws[drawn - 1] == Threw(msg.error)
    // an empty pattern takes the very first wallet
    ensures pat.prefix == [] && pat.suffix == [] && |draws| > 0 && draws[0].Drawn? ==>
              drawn == 1 && msg == Result(draws[0].wallet.address, draws[0].wallet.publicKey, draws[0].wallet.privateKey)
  {
    if !IsValidHex(pat.prefix) || !IsValidHex(pat.suffix) {
      return Error(InvalidHexMessage), 0;
    }
    var i := 0;
    while i < |draws|
      invariant 0 <= i <= |draws|
      invariant RejectedAll(draws, i, pat)
    {
      match draws[i]
      case Threw(m) =>
        return Error(m), i + 1;
      case Drawn(wallet) =>
        var address := wallet.address;
        var matchesPrefix := MatchesPrefix(address, pat.prefix, pat.caseSensitive);
        var matchesSuffix := MatchesSuffix(address, pat.suffix, pat.caseSensitive);
        if !((pat.prefix != [] && !matchesPrefix) || (pat.suffix != [] && !matchesSuffix)) {
          return Result(wallet.address, wallet.publicKey, wallet.privateKey), i + 1;
        }
      i := i + 1;
    }
    return NoMessage, |draws|;
  }

  /** Case-sensitive prefix matching, character by character. */
  lemma SensitivePrefixByCharacters(address: string, prefix: string)
    ensures MatchesPrefix(address, prefix, true) <==>
              && 2 + |prefix| <= |address|
              && address[0] == '0' && address[1] == 'x'
              && forall i :: 0 <= i < |prefix| ==> address[i + 2] == prefix[i]
  {
    var p := "0x" + prefix;
    if 2 + |prefix| <= |address| {
      if address[0] == '0' && address[1] == 'x' && forall i :: 0 <= i < |prefix| ==> address[i + 2] == prefix[i] {
        assert forall k :: 0 <= k < |p| ==> address[..|p|][k] == p[k] by {
          forall k | 0 <= k < |p| ensures address[..|p|][k] == p[k] {
            if k >= 2 { assert p[k] == prefix[k - 2]; }
          }
        }
      }
      if address[..|p|] == p {
        forall i | 0 <= i < |prefix| ensures address[i + 2] == prefix[i] {
          assert address[..|p|][i + 2] == p[i + 2];
        }
      }
    }
  }

  /** Case-insensitive prefix matching, character by character: the address starts
      with `0x` or `0X`, then agrees with the prefix up to the case of letters. */
  lemma InsensitivePrefixByCharacters(address: string, prefix: string)
    ensures MatchesPrefix(address, prefix, false) <==>
              && 2 + |prefix| <= |address|
              && address[0] == '0' && LowerChar(address[1]) == 'x'
              && forall i :: 0 <= i < |prefix| ==> LowerChar(address[i + 2]) == LowerChar(prefix[i])
  {
    var la, lp := ToLower(address), ToLower(prefix);
    SensitivePrefixByCharacters(la, lp);
  }

  /** Case-sensitive suffix matching, character by character. */
  lemma SensitiveSuffixByCharacters(address: string, suffix: string)
    ensures MatchesSuffix(address, suffix, true) <==>
              && |suffix| <= |address|
              && forall i :: 0 <= i < |suffix| ==> address[|address| - |suffix| + i] == suffix[i]
  {
    if |suffix| <= |address| {
      var tail := address[|address| - |suffix|..];
      assert forall i :: 0 <= i < |suffix| ==> tail[i] == address[|address| - |suffix| + i];
    }
  }

  /** Case-insensitive suffix matching, character by character. */
  lemma InsensitiveSuffixByCharacters(address: string, suffix: string)
    ensures MatchesSuffix(address, suffix, false) <==>
              && |suffix| <= |address|
              && forall i :: 0 <= i < |suffix| ==>
                   LowerChar(address[|address| - |suffix| + i]) == LowerChar(suffix[i])
  {
    SensitiveSuffixByCharacters(ToLower(address), ToLower(suffix));
  }

  /** An address accepted in case-sensitive mode is also accepted when case is ignored. */
  lemma SensitiveImpliesInsensitive(address: string, prefix: string, suffix: string)
    requires Satisfies(address, Pattern(prefix, suffix, true))
    ensures Satisfies(address, Pattern(prefix, suffix, false))
  {
    SensitivePrefixByCharacters(address, prefix);
    InsensitivePrefixByCharacters(address, prefix);
    SensitiveSuffixByCharacters(address, suffix);
    InsensitiveSuffixByCharacters(address, suffix);
  }

  /** Ignoring case, only the lower-case form of the pattern matters. */
  lemma InsensitiveSeesLowerCasePattern(address: string, prefix: string, suffix: string)
    ensures Satisfies(address, Pattern(prefix, suffix, false))
        <==> Satisfies(address, Pattern(ToLower(prefix), ToLower(suffix), false))
  {
    ToLowerIdempotent(prefix);
    ToLowerIdempotent(suffix);
  }
}
