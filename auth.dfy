/** The simulated AKA-style key derivations shared, as identical copies, by
    the coordinator, the device client and the standalone sequencer module. */
module AuthSim {
  import opened Primitives

  /** What `generate_auth_vector_simulated` returns: the challenge, the
      authentication token, the expected response and the session key. */
  datatype AuthVector = AuthVector(rand: int, autn: Digest, xresStar: string, ktx: string)

  /** A challenge waiting for its response: `{xres_star, ktx, rand}`. */
  datatype Challenge = Challenge(xresStar: string, sessionKey: string, rand: int)

  /** `calculate_session_key_simulated`: the first 16 hex characters of
      H(K + str(rand)). */
  function SessionKey(H: Hasher, longTermKey: string, rand: int): (k: string)
    ensures |k| == 16 && IsLowerHex(k)
    ensures k <= H.sha256(longTermKey + H.show(rand))
  {
    PrefixOfHex(H.sha256(longTermKey + H.show(rand)), 16);
    Prefix(H.sha256(longTermKey + H.show(rand)), 16)
  }

  /** `calculate_res_star_simulated`: the first 10 hex characters of
      H(K + str(rand) + 'Expected'). */
  function ResStar(H: Hasher, longTermKey: string, rand: int): (r: string)
    ensures |r| == 10 && IsLowerHex(r)
    ensures r <= H.sha256(longTermKey + H.show(rand) + "Expected")
  {
    PrefixOfHex(H.sha256(longTermKey + H.show(rand) + "Expected"), 10);
    Prefix(H.sha256(longTermKey + H.show(rand) + "Expected"), 10)
  }

  /** The challenge value `int(time.time() * 1000)`. */
  function ChallengeRand(now: real): int {
    Trunc(now * 1000.0)
  }

  /** `generate_auth_vector_simulated` at clock reading `now`. The vector
      computes its expected response inline; a device that answers with
      `ResStar` for the same key and challenge matches it, and the session key
      is the one `SessionKey` derives. */
  function AuthVectorAt(H: Hasher, supi: string, longTermKey: string, now: real): (v: AuthVector)
    ensures v.rand == ChallengeRand(now)
    ensures v.xresStar == ResStar(H, longTermKey, v.rand)
    ensures |v.xresStar| == 10 && |v.ktx| == 16
    ensures v.ktx == SessionKey(H, longTermKey, v.rand)
  {
    var rand := ChallengeRand(now);
    var autn := H.sha256(longTermKey + supi + H.show(rand));
    var xresStar := Prefix(H.sha256(longTermKey + H.show(rand) + "Expected"), 10);
    AuthVector(rand, autn, xresStar, SessionKey(H, longTermKey, rand))
  }

  /** The challenge a leader node stores for a vector. */
  function ChallengeOf(v: AuthVector): Challenge {
    Challenge(v.xresStar, v.ktx, v.rand)
  }

  /** The AUTHENTICATED transaction a successful step 2 adds to the pool;
      `now` is the clock reading its identifier is built from. */
  function AuthSuccessTx(H: Hasher, supi: string, now: real, c: Challenge): map<string, Json> {
    Obj([
      ("tx_id", JStr("AUTH_SUCCESS_" + supi + "_" + H.show(Trunc(now)))),
      ("uav_supi", JStr(supi)),
      ("status", JStr("AUTHENTICATED")),
      ("session_key_sim", JStr(c.sessionKey)),
      ("auth_rand", JInt(c.rand))])
  }
}
