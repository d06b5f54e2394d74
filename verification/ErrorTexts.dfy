/** The text of the error annotation, and how to read the failed step back from it. */
module ErrorTexts {
  import opened Protocol

  // The part of `text` before its first ": ".
  function StepNameOf(text: string): string {
    if text == "" || ": " <= text then ""
    else [text[0]] + StepNameOf(text[1..])
  }

  // The part after it.
  function ReasonOf(text: string): string {
    if text == "" then ""
    else if ": " <= text then text[2..]
    else ReasonOf(text[1..])
  }

  ghost predicate HasSeparator(name: string) {
    exists i :: 0 <= i < |name| && ": " <= name[i..]
  }

  // The step can be read back exactly when its name does not contain the separator itself.
  lemma {:induction false} StepNameRecovered(name: string, reason: string)
    ensures StepNameOf(ErrorText(name, reason)) == name <==> !HasSeparator(name)
    ensures |StepNameOf(ErrorText(name, reason))| <= |name|
  {
    var text := ErrorText(name, reason);
    if name == "" {
      assert text == ": " + reason;
    } else {
      assert text[1..] == ErrorText(name[1..], reason);
      StepNameRecovered(name[1..], reason);
      assert ": " <= text <==> ": " <= name by {
        if |name| == 1 { assert text[1] == ':'; }
      }
      if i :| 0 <= i < |name| && ": " <= name[i..] {
        if i == 0 {
          assert name[0..] == name;
        } else {
          assert name[1..][i - 1..] == name[i..];
        }
      }
      if ": " <= name {
        assert name[0..] == name;
      }
      if j :| 0 <= j < |name[1..]| && ": " <= name[1..][j..] {
        assert name[1..][j..] == name[j + 1..];
      }
    }
  }

  // For such names the reason is the rest, whatever it contains.
  lemma {:induction false} ReasonRecovered(name: string, reason: string)
    requires !HasSeparator(name)
    ensures ReasonOf(ErrorText(name, reason)) == reason
  {
    var text := ErrorText(name, reason);
    if name == "" {
      assert text == ": " + reason;
    } else {
      assert text[1..] == ErrorText(name[1..], reason);
      assert name[0..] == name && !(": " <= name);
      if |name| == 1 { assert text[1] == ':'; }
      forall i | 0 <= i < |name[1..]| ensures !(": " <= name[1..][i..]) {
        assert name[1..][i..] == name[i + 1..];
      }
      ReasonRecovered(name[1..], reason);
    }
  }

  // What the steps of a configuration must satisfy for the annotation to be readable.
  ghost predicate Readable(cfg: Config) {
    && (forall i :: 0 <= i < |cfg.steps| ==> !HasSeparator(cfg.steps[i].name))
    && (forall i, j :: 0 <= i < j < |cfg.steps| ==> cfg.steps[i].name != cfg.steps[j].name)
  }

  lemma NoColonNoSeparator(name: string)
    requires ':' !in name
    ensures !HasSeparator(name)
  {
    forall i | 0 <= i < |name| ensures !(": " <= name[i..]) {
      assert name[i..][0] == name[i];
    }
  }
}
