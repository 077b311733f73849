/** Setting the panel's configuration and reading it back through the store. */
module Hub75Settings {
  import Arith
  import opened Options
  import opened Text
  import Hub75Config
  import opened Hub75Text
  import opened Hub75Defaults
  import Hub75Parser
  import opened ConfigStore

  const HUB75_KEY: string := "hub75"
  // Read back for a key that was never set; no configuration's text.
  const UNSET: string := [1 as char]

  lemma UnsetIsMalformed()
    ensures ConfigOf(UNSET) == Malformed
  {
    assert UNSET[..1] == UNSET;
    assert TrimLeft(UNSET) == UNSET && TrimRight(UNSET) == UNSET && UNSET[0] != ',';
    assert UNSET[0] != ':' && !IsSpace(UNSET[0]) && !IsDigit(UNSET[0]);
    var field := Field(At(UNSET), ',', 32);
    assert IndexOf(UNSET, ',') == 1 && IndexOf(UNSET, ':') == 1;
    assert field == Some((UNSET, End));
    assert Field(At(UNSET), ':', 16) == Some((UNSET, End));
    assert UNSET[0..] == UNSET && Strtol(UNSET) == (0, 0);
    assert GeometryOf(UNSET, DEFAULT) == None;
  }

  class Settings {
    const store: Store
    // Bumped for every configuration set: the thread applies whichever it hasn't yet.
    var generation: nat

    ghost predicate Valid()
      reads store, store.entries
    {
      store.Valid()
    }

    ghost function Stored(): Option<Value>
      reads store, store.entries
    {
      Lookup(store.entries[..], (Str, HUB75_KEY))
    }

    /** The store after it was given a text: table and, if saving succeeds, flash; unchanged when there is no room. */
    twostate predicate Took(text: string, saveErr: int)
      reads store, store.entries
    {
      match WithKey(old(store.entries[..]), (Str, HUB75_KEY), StrValue(text))
      case Some(after) =>
        && store.entries[..] == after
        && store.flash == if saveErr == 0 then old(store.flash)[(Str, HUB75_KEY) := StrValue(text)]
                          else old(store.flash)
      case None => store.entries[..] == old(store.entries[..]) && store.flash == old(store.flash)
    }

    constructor (store: Store)
      requires store.Valid()
      ensures Valid() && this.store == store
    {
      this.store := store;
      generation := 0;
    }

    /** Normalizes and persists a value; a malformed one stores nothing. */
    method ConfigSet(value: string, saveErr: int) returns (err: int)
      requires Valid()
      modifies this, store, store.entries
      ensures Valid()
      ensures ConfigOf(value) == Malformed ==>
                err == -EINVAL && store.entries[..] == old(store.entries[..]) && store.flash == old(store.flash)
      ensures ConfigOf(value) != Malformed ==>
                && Took(Normalized(value).value, saveErr)
                && (err == 0 ==> saveErr == 0 && Stored() == Some(StrValue(Normalized(value).value)))
      ensures generation == old(generation) + if err == 0 && ConfigOf(value) != Malformed then 1 else 0
    {
      var parsed := Hub75Parser.ParseConfig(value);
      if parsed == Malformed {
        return -EINVAL;
      }
      var text := "";
      if parsed.Enabled? {
        text := Hub75Parser.FormatConfig(parsed.c, VALUE_LEN);
      }
      NormalizedMeansTheSame(value);
      ghost var before := store.entries[..];
      err := store.ConfigSetStr(HUB75_KEY, text, saveErr);
      if err == 0 {
        WithKeySets(before, (Str, HUB75_KEY), StrValue(text), (Str, HUB75_KEY));
        generation := generation + 1;
      }
    }

    /** The stored configuration, None if disabled; a missing or malformed value is replaced by the default. */
    method ConfigRead(saveErr: int) returns (c: Option<Hub75Config.Config>)
      requires Valid()
      modifies store, store.entries
      ensures Valid()
      ensures var text := match old(Stored()) case Some(StrValue(t)) => t case _ => UNSET;
              match ConfigOf(text)
              case Enabled(e) => c == Some(e) && store.entries[..] == old(store.entries[..])
                                 && store.flash == old(store.flash)
              case Disabled => c == None && store.entries[..] == old(store.entries[..])
                               && store.flash == old(store.flash)
              case Malformed => c == Some(DEFAULT) && Took(DEFAULT_TEXT, saveErr)
    {
      hide ConfigOf;
      UnsetIsMalformed();
      DefaultText();
      StoredFits();
      var value := store.ConfigGetStr(HUB75_KEY, VALUE_LEN, UNSET);
      if value != UNSET {
        var parsed := Hub75Parser.ParseConfig(value);
        if parsed != Malformed {
          return if parsed.Enabled? then Some(parsed.c) else None;
        }
      }
      var err := store.ConfigSetStr(HUB75_KEY, DEFAULT_TEXT, saveErr);
      var parsed := Hub75Parser.ParseConfig(DEFAULT_TEXT);
      c := Some(parsed.c);
    }

    lemma StoredFits()
      requires Valid()
      ensures match Stored() case Some(StrValue(t)) => t[..Arith.Min(|t|, VALUE_LEN - 1)] == t case _ => true
    {
      var es := store.entries[..];
      var at := SlotOf(es, (Str, HUB75_KEY));
      if at < |es| {
        assert ValueOk(es[at].kind, es[at].value);
      }
    }

    /** A configuration that was set successfully is the one read back. */
    method SetThenRead(value: string, saveErr: int, saveErr2: int) returns (err: int, c: Option<Hub75Config.Config>)
      requires Valid()
      modifies this, store, store.entries
      ensures Valid()
      ensures err == 0 && ConfigOf(value).Enabled? ==> c == Some(ConfigOf(value).c)
      ensures err == 0 && ConfigOf(value).Disabled? ==> c == None
      ensures err == 0 && ConfigOf(value) != Malformed ==> Stored() == Some(StrValue(Normalized(value).value))
    {
      hide ConfigOf, Normalized;
      err := ConfigSet(value, saveErr);
      ghost var stored := Stored();
      c := ConfigRead(saveErr2);
      if err == 0 && ConfigOf(value) != Malformed {
        NotMalformed(value);
        NormalizedMeansTheSame(value);
      }
    }
  }

  lemma NotMalformed(value: string)
    requires ConfigOf(value) != Malformed
    ensures Normalized(value).Some?
  {
  }
}
