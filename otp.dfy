/** The one-time-password service: an in-memory map from a normalised phone
    key to the pending code and its expiry instant (milliseconds). */
module Otp {
  import opened Text

  /** `generateOTP`: the development build always issues this code. */
  const FixedCode := "123456"

  /** Ten minutes, in milliseconds. */
  const Lifetime := 10 * 60 * 1000

  function GenerateOtp(): (c: string)
    ensures |c| == 6 && AllDigits(c)
  {
    FixedCode
  }

  /** The store key: toward ITU-T E.164, a number without a leading "+" gets
      the Indian country code "+91" in front; one with it is kept as given. */
  function Key(phone: string): (k: string)
    ensures StartsWith(k, "+")
    ensures StartsWith(phone, "+") ==> k == phone
    ensures !StartsWith(phone, "+") ==> k == "+91" + phone
  {
    if StartsWith(phone, "+") then phone else "+91" + phone
  }

  lemma KeyIdempotent(phone: string)
    ensures Key(Key(phone)) == Key(phone)
  {
  }

  /** A national number and its "+91" spelling share one entry. */
  lemma {:induction false} KeySharedBySpellings(national: string)
    requires !StartsWith(national, "+")
    ensures Key(national) == Key("+91" + national)
  {
    assert ("+91" + national)[..1] == "+";
  }

  datatype Entry = Entry(code: string, expiry: int)

  /** `sendOTP`: a fresh entry under the key, replacing any earlier one. */
  function SendStep(store: map<string, Entry>, phone: string, now: int): (r: map<string, Entry>)
    ensures Key(phone) in r && r[Key(phone)] == Entry(FixedCode, now + Lifetime)
    ensures forall k :: k in store && k != Key(phone) ==> k in r && r[k] == store[k]
    ensures forall k :: k in r ==> k == Key(phone) || k in store
  {
    store[Key(phone) := Entry(GenerateOtp(), now + Lifetime)]
  }

  /** The verdict of `verifyOTP` and the store it leaves. */
  datatype Verified = Verified(ok: bool, store: map<string, Entry>)

  /** `verifyOTP`: fails closed; succeeds only for a present, unexpired,
      matching entry. */
  function VerifyStep(store: map<string, Entry>, phone: string, code: string, now: int): (r: Verified)
    ensures r.ok <==> Key(phone) in store && now <= store[Key(phone)].expiry && store[Key(phone)].code == code
    ensures r.ok ==> Key(phone) !in r.store
    ensures forall j :: j != Key(phone) ==> (j in r.store <==> j in store)
    ensures forall j :: j in r.store ==> j in store && r.store[j] == store[j]
  {
    var k := Key(phone);
    if k !in store then Verified(false, store)
    else if now > store[k].expiry then Verified(false, map j | j in store && j != k :: store[j])
    else if store[k].code != code then Verified(false, store)
    else Verified(true, map j | j in store && j != k :: store[j])
  }

  /** No entry: false, and the store is untouched. */
  lemma VerifyWithoutEntry(store: map<string, Entry>, phone: string, code: string, now: int)
    requires Key(phone) !in store
    ensures VerifyStep(store, phone, code, now) == Verified(false, store)
  {
  }

  /** Past the expiry: false, and the entry is purged (only that one). */
  lemma VerifyExpired(store: map<string, Entry>, phone: string, code: string, now: int)
    requires Key(phone) in store && now > store[Key(phone)].expiry
    ensures var r := VerifyStep(store, phone, code, now);
      !r.ok && Key(phone) !in r.store
      && forall k :: k in store && k != Key(phone) ==> k in r.store && r.store[k] == store[k]
  {
  }

  /** A wrong code before expiry keeps the entry, so the right code still works afterwards. */
  lemma WrongCodeThenRetry(store: map<string, Entry>, phone: string, wrong: string, now: int, later: int)
    requires Key(phone) in store && now <= later <= store[Key(phone)].expiry
    requires wrong != store[Key(phone)].code
    ensures var r := VerifyStep(store, phone, wrong, now);
      !r.ok && r.store == store
      && VerifyStep(r.store, phone, store[Key(phone)].code, later).ok
  {
  }

  /** A successful verification consumes the entry: an immediate repeat fails. */
  lemma SingleUse(store: map<string, Entry>, phone: string, code: string, now: int, again: int)
    requires VerifyStep(store, phone, code, now).ok
    ensures !VerifyStep(VerifyStep(store, phone, code, now).store, phone, code, again).ok
  {
    var k := Key(phone);
    assert k !in VerifyStep(store, phone, code, now).store;
  }

  /** The code just sent verifies exactly until its expiry instant, inclusive. */
  lemma SendThenVerify(store: map<string, Entry>, phone: string, now: int, at: int)
    ensures VerifyStep(SendStep(store, phone, now), phone, FixedCode, at).ok <==> at <= now + Lifetime
  {
  }

  /** Verification by another spelling of the same number uses the same entry. */
  lemma SendThenVerifyOtherSpelling(store: map<string, Entry>, national: string, now: int)
    requires !StartsWith(national, "+")
    ensures VerifyStep(SendStep(store, national, now), "+91" + national, FixedCode, now).ok
  {
    KeySharedBySpellings(national);
  }

  /** A history of calls into the service. */
  datatype Call = SendCall(phone: string, at: int) | VerifyCall(phone: string, code: string, at: int)

  /** The store after a history of calls, starting from the empty store. */
  function Replay(calls: seq<Call>): map<string, Entry> {
    if calls == [] then map[]
    else
      var before := Replay(calls[..|calls| - 1]);
      match calls[|calls| - 1]
      case SendCall(p, at) => SendStep(before, p, at)
      case VerifyCall(p, c, at) => VerifyStep(before, p, c, at).store
  }

  /** Entry `e` under key `k` is what some recorded `sendOTP` stored. */
  ghost predicate Issued(calls: seq<Call>, k: string, e: Entry) {
    exists i :: 0 <= i < |calls| && calls[i].SendCall? && Key(calls[i].phone) == k
                && e == Entry(FixedCode, calls[i].at + Lifetime)
  }

  /** Every pending entry was stored by an earlier send under its key. */
  lemma {:induction false} EntriesWereIssued(calls: seq<Call>)
    ensures forall k :: k in Replay(calls) ==> Issued(calls, k, Replay(calls)[k])
  {
    if calls != [] {
      var init := calls[..|calls| - 1];
      EntriesWereIssued(init);
      var before := Replay(init);
      var after := Replay(calls);
      forall k | k in after ensures Issued(calls, k, after[k]) {
        var last := |calls| - 1;
        if calls[last].SendCall? && k == Key(calls[last].phone) {
          assert after[k] == Entry(FixedCode, calls[last].at + Lifetime);
        } else {
          assert k in before && after[k] == before[k];
          var i :| 0 <= i < |init| && init[i].SendCall? && Key(init[i].phone) == k
                   && before[k] == Entry(FixedCode, init[i].at + Lifetime);
          assert calls[i] == init[i];
        }
      }
    }
  }

  /** Fails closed over any history: a verification succeeds only with the
      issued code, within the lifetime of a send to the same key. */
  lemma VerifiedCodeWasSent(calls: seq<Call>, phone: string, code: string, at: int)
    requires VerifyStep(Replay(calls), phone, code, at).ok
    ensures code == FixedCode
    ensures exists i :: 0 <= i < |calls| && calls[i].SendCall? && Key(calls[i].phone) == Key(phone)
                        && at <= calls[i].at + Lifetime
  {
    EntriesWereIssued(calls);
  }

  /** The process-wide `otpStore`. */
  class OtpStore {
    var entries: map<string, Entry>

    constructor ()
      ensures entries == map[]
    {
      entries := map[];
    }

    /** `sendOTP(phone)`: stores the code under the key; its failure branch
        is unreachable, so it always reports success. */
    method Send(phone: string, now: int) returns (sent: bool)
      modifies this
      ensures sent
      ensures entries == SendStep(old(entries), phone, now)
    {
      var formatted := if StartsWith(phone, "+") then phone else "+91" + phone;
      var otp := GenerateOtp();
      var expiry := now + 10 * 60 * 1000;
      entries := entries[formatted := Entry(otp, expiry)];
      sent := true;
    }

    /** `verifyOTP(phone, code)`. */
    method Verify(phone: string, code: string, now: int) returns (ok: bool)
      modifies this
      ensures Verified(ok, entries) == VerifyStep(old(entries), phone, code, now)
    {
      var formatted := if StartsWith(phone, "+") then phone else "+91" + phone;
      if formatted !in entries {
        return false;
      }
      var stored := entries[formatted];
      if now > stored.expiry {
        entries := map k | k in entries && k != formatted :: entries[k];
        return false;
      }
      if stored.code != code {
        return false;
      }
      entries := map k | k in entries && k != formatted :: entries[k];
      return true;
    }
  }
}
