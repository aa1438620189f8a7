/**
 * Reading the author's name from `config.txt` (Daily_Report.py, lines 7-12):
 * the text is split into lines and every line that starts with `name:`
 * rebinds `name` to the stripped text after its first colon, so the last
 * such line wins. Without one, `name` stays unbound.
 */
module Config {
  import opened Basics
  import opened Text

  const NamePrefix := "name:"

  /** `line.split(":", 1)[1].strip()`: for a `name:` line, the stripped text right after the prefix. */
  function NameValue(line: string): (v: string)
    requires StartsWith(line, NamePrefix)
    ensures v == Strip(line[|NamePrefix|..])
  {
    assert line[4] == ':' && ':' !in line[..4] by { assert line[..5] == NamePrefix; }
    FirstIndexIs(line, ':', 4);
    var parts := SplitOnce(line, ':');
    Strip(parts[1])
  }

  /** The value the loop leaves in `name` after scanning `lines`: that of the last `name:` line. */
  function LastName(lines: seq<string>): Option<string>
  {
    if lines == [] then None
    else if StartsWith(lines[|lines| - 1], NamePrefix) then Some(NameValue(lines[|lines| - 1]))
    else LastName(lines[..|lines| - 1])
  }

  /** The name a configuration text yields. */
  function ConfiguredName(text: string): Option<string>
  {
    LastName(Split(text, '\n'))
  }

  /** The loop of lines 10-12, rebinding `name` at each `name:` line. */
  method ReadName(text: string) returns (name: Option<string>)
    ensures name == ConfiguredName(text)
  {
    var data := Split(text, '\n');
    name := None;
    for k := 0 to |data|
      invariant name == LastName(data[..k])
    {
      LastNameStep(data, k);
      if StartsWith(data[k], NamePrefix) {
        name := Some(NameValue(data[k]));
      }
    }
    assert data[..|data|] == data;
  }

  /** Scanning one more line rebinds the name exactly when that line starts with `name:`. */
  lemma LastNameStep(lines: seq<string>, k: nat)
    requires k < |lines|
    ensures LastName(lines[..k + 1])
         == if StartsWith(lines[k], NamePrefix) then Some(NameValue(lines[k])) else LastName(lines[..k])
  {
    assert lines[..k + 1][..k] == lines[..k];
    assert lines[..k + 1][k] == lines[k];
  }

  /** There is no name exactly when no line starts with `name:`. */
  lemma {:induction false} LastNameNone(lines: seq<string>)
    ensures LastName(lines).None? <==> forall k :: 0 <= k < |lines| ==> !StartsWith(lines[k], NamePrefix)
  {
    if lines != [] {
      var init := lines[..|lines| - 1];
      LastNameNone(init);
      assert forall k :: 0 <= k < |init| ==> init[k] == lines[k];
    }
  }

  /** When line `i` is the last `name:` line, the name is its value. */
  lemma {:induction false} LastNameIsLastMatch(lines: seq<string>, i: nat)
    requires i < |lines| && StartsWith(lines[i], NamePrefix)
    requires forall k :: i < k < |lines| ==> !StartsWith(lines[k], NamePrefix)
    ensures LastName(lines) == Some(NameValue(lines[i]))
  {
    if i < |lines| - 1 {
      var init := lines[..|lines| - 1];
      assert init[i] == lines[i];
      LastNameIsLastMatch(init, i);
    }
  }

  /** A name read from a line of the configuration never spans a line break. */
  lemma {:induction false} LastNameOneLine(lines: seq<string>)
    requires forall k :: 0 <= k < |lines| ==> '\n' !in lines[k]
    ensures LastName(lines).Some? ==> '\n' !in LastName(lines).value
  {
    if lines != [] {
      var last := lines[|lines| - 1];
      if StartsWith(last, NamePrefix) {
        assert forall c :: c in last[|NamePrefix|..] ==> c in last;
        StripWithout(last[|NamePrefix|..], '\n');
      } else {
        LastNameOneLine(lines[..|lines| - 1]);
      }
    }
  }

  lemma ConfiguredNameOneLine(text: string)
    ensures ConfiguredName(text).Some? ==> '\n' !in ConfiguredName(text).value
  {
    LastNameOneLine(Split(text, '\n'));
  }

  /**
   * A configuration made of one `name:` line yields exactly the value on it,
   * without the blanks around it (`name: Alice Example` gives `Alice Example`).
   */
  lemma NameLineValue(pre: string, v: string, post: string)
    requires forall k :: 0 <= k < |pre| ==> IsSpace(pre[k]) && pre[k] != '\n'
    requires forall k :: 0 <= k < |post| ==> IsSpace(post[k]) && post[k] != '\n'
    requires '\n' !in v && (v != [] ==> !IsSpace(v[0]) && !IsSpace(v[|v| - 1]))
    ensures ConfiguredName(NamePrefix + pre + v + post) == Some(v)
  {
    var line := NamePrefix + pre + v + post;
    assert '\n' !in line;
    assert Split(line, '\n') == [line];
    assert line[..|NamePrefix|] == NamePrefix;
    assert line[|NamePrefix|..] == pre + (v + post);
    StripPadding(pre, v, post);
  }
}
