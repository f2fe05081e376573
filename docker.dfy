/** `readAccessCredentialsFromEnv` of internal/docker/docker.go: the storage node's
    credentials read from its container's `KEY=VALUE` environment list. */
module Docker {
  import opened Base

  const SecretKeyVar := "MINIO_SECRET_KEY"
  const AccessKeyVar := "MINIO_ACCESS_KEY"

  /** The two named results, `accessKeyID` and `secretAccessKey`. */
  datatype Credentials = Credentials(accessKeyID: string, secretAccessKey: string)

  /** The function returns, or indexes `els[1]` of a one-element split and panics. */
  datatype Outcome = Parsed(creds: Credentials) | IndexOutOfRange

  /** `strings.SplitN(s, "=", 2)`: `[s]` when there is no '=', otherwise the text
      before the first '=' and everything after it. */
  function SplitN2(s: string): (els: seq<string>)
    ensures |els| == 1 || |els| == 2
    ensures |els| == 1 ==> els[0] == s && '=' !in s
    ensures |els| == 2 ==> s == els[0] + "=" + els[1] && '=' !in els[0]
  {
    if s == [] then [s]
    else if s[0] == '=' then ["", s[1..]]
    else
      var rest := SplitN2(s[1..]);
      var els := [[s[0]] + rest[0]] + rest[1..];
      assert s == [s[0]] + s[1..];
      els
  }

  /** Splitting `k=v` for a key without '=' gives back `k` and all of `v`, any '=' in it included. */
  lemma {:induction false} SplitKeyValue(k: string, v: string)
    requires '=' !in k
    ensures SplitN2(k + "=" + v) == [k, v]
  {
    if k == [] {
      assert k + "=" + v == "=" + v;
      assert ("=" + v)[1..] == v;
    } else {
      SplitKeyValue(k[1..], v);
      var s := k + "=" + v;
      assert s[0] == k[0] && s[1..] == k[1..] + "=" + v;
      assert [k[0]] + k[1..] == k;
    }
  }

  /** The loop from a given point on, with the results set so far: stop before the
      next entry once both are non-empty; the secret key's value goes to
      `accessKeyID` and the access key's to `secretAccessKey`. */
  function Scan(env: seq<string>, c: Credentials): Outcome {
    if env == [] || (c.accessKeyID != "" && c.secretAccessKey != "") then Parsed(c)
    else
      var els := SplitN2(env[0]);
      if els[0] == SecretKeyVar then
        if |els| < 2 then IndexOutOfRange else Scan(env[1..], c.(accessKeyID := els[1]))
      else if els[0] == AccessKeyVar then
        if |els| < 2 then IndexOutOfRange else Scan(env[1..], c.(secretAccessKey := els[1]))
      else Scan(env[1..], c)
  }

  const NoCredentials := Credentials("", "")

  /** `readAccessCredentialsFromEnv`: the loop over the list with its early `break`. */
  method ReadAccessCredentialsFromEnv(envVars: seq<string>) returns (o: Outcome)
    ensures o == Scan(envVars, NoCredentials)
  {
    var accessKeyID, secretAccessKey := "", "";
    var i := 0;
    while i < |envVars|
      invariant 0 <= i <= |envVars|
      invariant Scan(envVars[i..], Credentials(accessKeyID, secretAccessKey)) == Scan(envVars, NoCredentials)
    {
      if accessKeyID != "" && secretAccessKey != "" {
        break;
      }
      var els := SplitN2(envVars[i]);
      assert envVars[i..][1..] == envVars[i + 1..];
      if els[0] == SecretKeyVar {
        if |els| < 2 {
          return IndexOutOfRange;
        }
        accessKeyID := els[1];
      } else if els[0] == AccessKeyVar {
        if |els| < 2 {
          return IndexOutOfRange;
        }
        secretAccessKey := els[1];
      }
      i := i + 1;
    }
    assert i == |envVars| ==> envVars[i..] == [];
    return Parsed(Credentials(accessKeyID, secretAccessKey));
  }

  /** The values are swapped: MINIO_SECRET_KEY's becomes `accessKeyID` and
      MINIO_ACCESS_KEY's becomes `secretAccessKey`; a value keeps every '=' after the first. */
  lemma SwappedKeys(secret: string, access: string)
    ensures Scan([SecretKeyVar + "=" + secret, AccessKeyVar + "=" + access], NoCredentials)
            == Parsed(Credentials(secret, access))
  {
    SplitKeyValue(SecretKeyVar, secret);
    SplitKeyValue(AccessKeyVar, access);
    var env := [SecretKeyVar + "=" + secret, AccessKeyVar + "=" + access];
    assert env[1..][1..] == [];
    assert env[0] == SecretKeyVar + "=" + secret && env[1..][0] == AccessKeyVar + "=" + access;
    assert Scan(env, NoCredentials) == Scan(env[1..], Credentials(secret, ""));
    assert Scan(env[1..], Credentials(secret, "")) == Scan([], Credentials(secret, access));
  }

  /** Once both results are non-empty nothing later is looked at, however it reads. */
  lemma CompleteIsFinal(env: seq<string>, c: Credentials)
    requires c.accessKeyID != "" && c.secretAccessKey != ""
    ensures Scan(env, c) == Parsed(c)
  {
  }

  /** Before both are set, an entry for a key sets that key whatever it held, so a
      later entry for the same key overrides an earlier one. */
  lemma LaterOverrides(v: string, rest: seq<string>, c: Credentials)
    requires c.accessKeyID == "" || c.secretAccessKey == ""
    ensures Scan([SecretKeyVar + "=" + v] + rest, c) == Scan(rest, c.(accessKeyID := v))
    ensures Scan([AccessKeyVar + "=" + v] + rest, c) == Scan(rest, c.(secretAccessKey := v))
  {
    SplitKeyValue(SecretKeyVar, v);
    SplitKeyValue(AccessKeyVar, v);
    assert ([SecretKeyVar + "=" + v] + rest)[1..] == rest;
    assert ([AccessKeyVar + "=" + v] + rest)[1..] == rest;
  }

  /** Two leading entries for the secret key: the second one wins. */
  lemma LaterOverridesTwice(first: string, second: string, rest: seq<string>)
    ensures Scan([SecretKeyVar + "=" + first, SecretKeyVar + "=" + second] + rest, NoCredentials)
            == Scan(rest, Credentials(second, ""))
  {
    var tail := [SecretKeyVar + "=" + second] + rest;
    assert [SecretKeyVar + "=" + first, SecretKeyVar + "=" + second] + rest == [SecretKeyVar + "=" + first] + tail;
    LaterOverrides(first, tail, NoCredentials);
    LaterOverrides(second, rest, NoCredentials.(accessKeyID := first));
  }

  /** After both keys are found, later duplicates are ignored. */
  lemma LaterDuplicatesIgnored(secret: string, access: string, rest: seq<string>)
    requires secret != "" && access != ""
    ensures Scan([SecretKeyVar + "=" + secret, AccessKeyVar + "=" + access] + rest, NoCredentials)
            == Parsed(Credentials(secret, access))
  {
    SplitKeyValue(SecretKeyVar, secret);
    SplitKeyValue(AccessKeyVar, access);
    var env := [SecretKeyVar + "=" + secret, AccessKeyVar + "=" + access] + rest;
    assert env[1..][1..] == rest;
    assert env[0] == SecretKeyVar + "=" + secret && env[1..][0] == AccessKeyVar + "=" + access;
    assert Scan(env, NoCredentials) == Scan(env[1..], Credentials(secret, ""));
    assert Scan(env[1..], Credentials(secret, "")) == Scan(rest, Credentials(secret, access));
  }

  /** The key of an entry is what precedes its first '='. */
  function KeyOf(entry: string): string {
    SplitN2(entry)[0]
  }

  /** A key that never appears leaves its result as it was, "" from the start; entries
      with other keys change nothing. */
  lemma {:induction false} MissingKeyUntouched(env: seq<string>, c: Credentials)
    requires Scan(env, c).Parsed?
    ensures (forall i :: 0 <= i < |env| ==> KeyOf(env[i]) != SecretKeyVar) ==> Scan(env, c).creds.accessKeyID == c.accessKeyID
    ensures (forall i :: 0 <= i < |env| ==> KeyOf(env[i]) != AccessKeyVar) ==> Scan(env, c).creds.secretAccessKey == c.secretAccessKey
  {
    if env != [] && !(c.accessKeyID != "" && c.secretAccessKey != "") {
      var els := SplitN2(env[0]);
      assert forall i :: 1 <= i < |env| ==> env[1..][i - 1] == env[i];
      if els[0] == SecretKeyVar {
        MissingKeyUntouched(env[1..], c.(accessKeyID := els[1]));
      } else if els[0] == AccessKeyVar {
        MissingKeyUntouched(env[1..], c.(secretAccessKey := els[1]));
      } else {
        MissingKeyUntouched(env[1..], c);
      }
    }
  }

  /** A list whose every entry contains "=" never panics. */
  lemma {:induction false} NoPanicWithEquals(env: seq<string>, c: Credentials)
    requires forall i :: 0 <= i < |env| ==> '=' in env[i]
    ensures Scan(env, c).Parsed?
  {
    if env != [] && !(c.accessKeyID != "" && c.secretAccessKey != "") {
      var els := SplitN2(env[0]);
      assert |els| == 2;
      assert forall i :: 1 <= i < |env| ==> env[1..][i - 1] == env[i];
      if els[0] == SecretKeyVar {
        NoPanicWithEquals(env[1..], c.(accessKeyID := els[1]));
      } else if els[0] == AccessKeyVar {
        NoPanicWithEquals(env[1..], c.(secretAccessKey := els[1]));
      } else {
        NoPanicWithEquals(env[1..], c);
      }
    }
  }

  /** A string without '=' is not split. */
  lemma {:induction false} SplitNoEquals(s: string)
    requires '=' !in s
    ensures SplitN2(s) == [s]
  {
    if s != [] {
      assert s[0] in s;
      SplitNoEquals(s[1..]);
      assert [s[0]] + s[1..] == s;
    }
  }

  /** An entry that is a recognised key with no '=' panics while a result is still empty. */
  lemma BareEntryPanics(k: string, rest: seq<string>, c: Credentials)
    requires k == SecretKeyVar || k == AccessKeyVar
    requires '=' !in k
    requires c.accessKeyID == "" || c.secretAccessKey == ""
    ensures Scan([k] + rest, c) == IndexOutOfRange
  {
    SplitNoEquals(k);
    assert ([k] + rest)[0] == k;
  }

  /** Either key written without '=' panics. */
  lemma BareKeyPanics(rest: seq<string>)
    ensures Scan([SecretKeyVar] + rest, NoCredentials) == IndexOutOfRange
    ensures Scan([AccessKeyVar] + rest, NoCredentials) == IndexOutOfRange
  {
    BareEntryPanics(SecretKeyVar, rest, NoCredentials);
    BareEntryPanics(AccessKeyVar, rest, NoCredentials);
  }
}
