/** `ConfigurationManager`: properties loaded from `application.properties`
    and then `application-local.properties`, each lookup first asking the
    environment under the key's upper-case, underscore form.  The
    environment and the two resource files are parameters (a missing file is
    `None`). */
module Configuration {
  import opened Common

  const SMTP_HOST_KEY: string := "email.smtp.host"
  const SMTP_PORT_KEY: string := "email.smtp.port"
  const SMTP_AUTH_KEY: string := "email.smtp.auth"
  const STARTTLS_KEY: string := "email.smtp.starttls.enable"
  const SSL_TRUST_KEY: string := "email.smtp.ssl.trust"
  const USERNAME_KEY: string := "email.username"
  const PASSWORD_KEY: string := "email.password"
  const DEFAULT_SMTP_HOST: string := "smtp.gmail.com"
  const DEFAULT_SMTP_PORT: int := 587

  /** The character of an environment key that stands for `c`: `_` for a
      dot, otherwise `c` upper-cased. */
  function EnvChar(c: char): char {
    if c == '.' then '_' else UpperChar(c)
  }

  /** The environment variable asked for `key`: upper case, with each `.`
      replaced by `_`. */
  function EnvKey(key: string): (r: string)
    ensures |r| == |key|
    ensures forall i :: 0 <= i < |key| ==> r[i] == (if key[i] == '.' then '_' else UpperChar(key[i]))
  {
    seq(|key|, i requires 0 <= i < |key| => EnvChar(key[i]))
  }

  /** An environment key has no dot and no lower-case ASCII letter, and it
      keeps every other character in place. */
  lemma EnvKeyShape(key: string)
    ensures forall i :: 0 <= i < |key| ==> EnvKey(key)[i] != '.' && !('a' <= EnvKey(key)[i] <= 'z')
    ensures forall i :: 0 <= i < |key| && key[i] != '.' && !('a' <= key[i] <= 'z') ==> EnvKey(key)[i] == key[i]
  {
  }

  /** Two keys read the same variable exactly when they have the same
      length and agree character by character up to case and `.` versus
      `_`; so `email.smtp.port` and `EMAIL_SMTP_PORT` do. */
  lemma {:induction false} EnvKeyCollides(a: string, b: string)
    ensures EnvKey(a) == EnvKey(b) <==>
      |a| == |b| && forall i :: 0 <= i < |a| ==> EnvChar(a[i]) == EnvChar(b[i])
  {
    if EnvKey(a) == EnvKey(b) {
      forall i | 0 <= i < |a|
        ensures EnvChar(a[i]) == EnvChar(b[i])
      {
        assert EnvKey(a)[i] == EnvKey(b)[i];
      }
    }
    if |a| == |b| && forall i :: 0 <= i < |a| ==> EnvChar(a[i]) == EnvChar(b[i]) {
      assert forall i :: 0 <= i < |a| ==> EnvKey(a)[i] == EnvKey(b)[i];
    }
  }

  /** `Properties.getProperty`: the value of the key, or null. */
  function Lookup(m: map<string, string>, key: string): (r: Option<string>)
    ensures r.Some? <==> key in m
    ensures r.Some? ==> r.value == m[key]
  {
    if key in m then Some(m[key]) else None
  }

  /** `Properties.load` of one file: each key of the file replaces any
      earlier value. */
  function LoadFile(properties: map<string, string>, file: Option<map<string, string>>): (r: map<string, string>)
    ensures file.None? ==> r == properties
    ensures file.Some? ==> r.Keys == properties.Keys + file.value.Keys
    ensures file.Some? ==> forall k :: k in r ==> r[k] == (if k in file.value then file.value[k] else properties[k])
  {
    if file.None? then properties else properties + file.value
  }

  /** After loading both files, a key of the local file has its local value,
      any other key of the defaults file its default value, and the rest of
      the earlier properties stay. */
  lemma LocalOverridesDefaults(properties: map<string, string>, defaults: Option<map<string, string>>,
                               local: Option<map<string, string>>, key: string)
    ensures var r := LoadFile(LoadFile(properties, defaults), local);
      && (local.Some? && key in local.value ==> Lookup(r, key) == Some(local.value[key]))
      && (!(local.Some? && key in local.value) && defaults.Some? && key in defaults.value ==> Lookup(r, key) == Some(defaults.value[key]))
      && (!(local.Some? && key in local.value) && !(defaults.Some? && key in defaults.value) ==> Lookup(r, key) == Lookup(properties, key))
  {
  }

  class ConfigurationManager {
    var properties: map<string, string>

    /** The private constructor: empty properties, then `loadProperties`. */
    constructor (defaults: Option<map<string, string>>, local: Option<map<string, string>>)
      ensures properties == LoadFile(LoadFile(map[], defaults), local)
    {
      properties := map[];
      new;
      LoadProperties(defaults, local);
    }

    /** `loadProperties`: the defaults file, then the local file. */
    method LoadProperties(defaults: Option<map<string, string>>, local: Option<map<string, string>>)
      modifies this
      ensures properties == LoadFile(LoadFile(old(properties), defaults), local)
    {
      if defaults.Some? {
        properties := properties + defaults.value;
      }
      if local.Some? {
        properties := properties + local.value;
      }
    }

    /** `reload`: clear the properties and load both files again. */
    method Reload(defaults: Option<map<string, string>>, local: Option<map<string, string>>)
      modifies this
      ensures properties == LoadFile(LoadFile(map[], defaults), local)
    {
      properties := map[];
      LoadProperties(defaults, local);
    }

    /** `getProperty(key)`: a non-empty environment value wins; otherwise the
        property, or null. */
    function GetProperty(env: map<string, string>, key: string): (r: Option<string>)
      reads this
      ensures EnvKey(key) in env && env[EnvKey(key)] != [] ==> r == Some(env[EnvKey(key)])
      ensures !(EnvKey(key) in env && env[EnvKey(key)] != []) ==> r == Lookup(properties, key)
    {
      var envValue := Lookup(env, EnvKey(key));
      if envValue.Some? && envValue.value != [] then envValue else Lookup(properties, key)
    }

    /** `getProperty(key, defaultValue)`: the default exactly when the
        lookup finds nothing. */
    function GetPropertyOr(env: map<string, string>, key: string, defaultValue: string): (r: string)
      reads this
      ensures GetProperty(env, key).None? ==> r == defaultValue
      ensures GetProperty(env, key).Some? ==> r == GetProperty(env, key).value
    {
      var value := GetProperty(env, key);
      if value.Some? then value.value else defaultValue
    }

    /** `getIntProperty`: the value parsed by `Integer.parseInt`, or the
        default when it is missing or does not parse. */
    function GetIntProperty(env: map<string, string>, key: string, defaultValue: int): (r: int)
      reads this
      ensures GetProperty(env, key).None? ==> r == defaultValue
      ensures GetProperty(env, key).Some? && ParseInteger(GetProperty(env, key).value, INT_MIN, INT_MAX).None? ==> r == defaultValue
      ensures GetProperty(env, key).Some? && ParseInteger(GetProperty(env, key).value, INT_MIN, INT_MAX).Some? ==>
        r == ParseInteger(GetProperty(env, key).value, INT_MIN, INT_MAX).value
      ensures r == defaultValue || INT_MIN <= r <= INT_MAX
    {
      var value := GetProperty(env, key);
      if value.Some? then
        var parsed := ParseInteger(value.value, INT_MIN, INT_MAX);
        if parsed.Some? then parsed.value else defaultValue
      else defaultValue
    }

    /** `getBooleanProperty`: the default only when the value is missing;
        otherwise `Boolean.parseBoolean`, true exactly for "true" in any
        case. */
    function GetBooleanProperty(env: map<string, string>, key: string, defaultValue: bool): (r: bool)
      reads this
      ensures GetProperty(env, key).None? ==> r == defaultValue
      ensures GetProperty(env, key).Some? ==> (r <==> EqualsIgnoreCase(GetProperty(env, key).value, "true"))
    {
      var value := GetProperty(env, key);
      if value.Some? then EqualsIgnoreCase(value.value, "true") else defaultValue
    }

    function GetEmailUsername(env: map<string, string>): Option<string>
      reads this
    {
      GetProperty(env, USERNAME_KEY)
    }

    function GetEmailPassword(env: map<string, string>): Option<string>
      reads this
    {
      GetProperty(env, PASSWORD_KEY)
    }

    function GetSmtpHost(env: map<string, string>): string
      reads this
    {
      GetPropertyOr(env, SMTP_HOST_KEY, DEFAULT_SMTP_HOST)
    }

    function GetSmtpPort(env: map<string, string>): int
      reads this
    {
      GetIntProperty(env, SMTP_PORT_KEY, DEFAULT_SMTP_PORT)
    }

    predicate IsSmtpAuthEnabled(env: map<string, string>)
      reads this
    {
      GetBooleanProperty(env, SMTP_AUTH_KEY, true)
    }

    predicate IsStartTlsEnabled(env: map<string, string>)
      reads this
    {
      GetBooleanProperty(env, STARTTLS_KEY, true)
    }

    function GetSmtpSslTrust(env: map<string, string>): string
      reads this
    {
      GetPropertyOr(env, SSL_TRUST_KEY, DEFAULT_SMTP_HOST)
    }

    /** With none of the SMTP settings in the environment or the files, the
        mail settings are Gmail's: host and trusted host `smtp.gmail.com`,
        port 587, authentication and STARTTLS on. */
    lemma SmtpDefaults(env: map<string, string>)
      requires forall k :: k in {SMTP_HOST_KEY, SMTP_PORT_KEY, SMTP_AUTH_KEY, STARTTLS_KEY, SSL_TRUST_KEY} ==>
        EnvKey(k) !in env && k !in properties
      ensures GetSmtpHost(env) == DEFAULT_SMTP_HOST && GetSmtpSslTrust(env) == DEFAULT_SMTP_HOST
      ensures GetSmtpPort(env) == DEFAULT_SMTP_PORT
      ensures IsSmtpAuthEnabled(env) && IsStartTlsEnabled(env)
    {
      assert SMTP_HOST_KEY in {SMTP_HOST_KEY, SMTP_PORT_KEY, SMTP_AUTH_KEY, STARTTLS_KEY, SSL_TRUST_KEY};
      assert SMTP_PORT_KEY in {SMTP_HOST_KEY, SMTP_PORT_KEY, SMTP_AUTH_KEY, STARTTLS_KEY, SSL_TRUST_KEY};
      assert SMTP_AUTH_KEY in {SMTP_HOST_KEY, SMTP_PORT_KEY, SMTP_AUTH_KEY, STARTTLS_KEY, SSL_TRUST_KEY};
      assert STARTTLS_KEY in {SMTP_HOST_KEY, SMTP_PORT_KEY, SMTP_AUTH_KEY, STARTTLS_KEY, SSL_TRUST_KEY};
      assert SSL_TRUST_KEY in {SMTP_HOST_KEY, SMTP_PORT_KEY, SMTP_AUTH_KEY, STARTTLS_KEY, SSL_TRUST_KEY};
    }

    /** A port written in decimal within `int` range is read back as that
        number, from the environment or from the files alike. */
    lemma SmtpPortRoundTrip(env: map<string, string>, port: int)
      requires INT_MIN <= port <= INT_MAX
      requires GetProperty(env, SMTP_PORT_KEY) == Some(IntToString(port))
      ensures GetSmtpPort(env) == port
    {
      ParseIntegerOfIntToString(port, INT_MIN, INT_MAX);
    }

    /** An empty environment value is ignored: the lookup is the same as with
        the variable unset. */
    lemma EmptyEnvIgnored(env: map<string, string>, key: string)
      requires EnvKey(key) in env && env[EnvKey(key)] == []
      ensures GetProperty(env, key) == GetProperty(env - {EnvKey(key)}, key)
    {
    }
  }
}
