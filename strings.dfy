/**
 * PHP's explode() on a one-character separator, and the two places the
 * engine splits an action id with it: the processor split of the specialize
 * stage and the choice of a legacy handler in process().
 */
module PhpStrings {
  import opened MassiveTypes

  /** explode(sep, s): the pieces of `s` between occurrences of `sep`. */
  function Explode(s: string, sep: char): (parts: seq<string>)
    ensures |parts| >= 1
    decreases |s|
  {
    if s == [] then [[]]
    else
      var rest := Explode(s[1..], sep);
      if s[0] == sep then [[]] + rest
      else [[s[0]] + rest[0]] + rest[1..]
  }

  /** implode(sep, parts), the inverse of Explode. */
  function Implode(parts: seq<string>, sep: char): string
    requires |parts| >= 1
    decreases |parts|
  {
    if |parts| == 1 then parts[0] else parts[0] + [sep] + Implode(parts[1..], sep)
  }

  /** The number of occurrences of `c` in `s`. */
  function CountChar(s: string, c: char): nat
    decreases |s|
  {
    if s == [] then 0 else (if s[0] == c then 1 else 0) + CountChar(s[1..], c)
  }

  /** explode gives one piece more than there are separators. */
  lemma {:induction false} ExplodeCount(s: string, sep: char)
    ensures |Explode(s, sep)| == CountChar(s, sep) + 1
    decreases |s|
  {
    if s != [] {
      ExplodeCount(s[1..], sep);
    }
  }

  /** Joining the pieces with the separator gives back the string. */
  lemma {:induction false} ImplodeExplode(s: string, sep: char)
    ensures Implode(Explode(s, sep), sep) == s
    decreases |s|
  {
    if s != [] {
      var rest := Explode(s[1..], sep);
      ImplodeExplode(s[1..], sep);
      if s[0] == sep {
        assert ([[]] + rest)[1..] == rest;
      } else if |rest| > 1 {
        assert ([[s[0]] + rest[0]] + rest[1..])[1..] == rest[1..];
        assert Implode(rest, sep) == rest[0] + [sep] + Implode(rest[1..], sep);
      }
    }
  }

  /** No piece contains the separator. */
  lemma {:induction false} ExplodePiecesFree(s: string, sep: char)
    ensures forall k :: 0 <= k < |Explode(s, sep)| ==> sep !in Explode(s, sep)[k]
    decreases |s|
  {
    if s != [] {
      ExplodePiecesFree(s[1..], sep);
    }
  }

  /** A string without the separator is one piece. */
  lemma {:induction false} ExplodeFree(s: string, sep: char)
    requires sep !in s
    ensures Explode(s, sep) == [s]
    decreases |s|
  {
    if s != [] {
      assert s[0] in s;
      ExplodeFree(s[1..], sep);
      assert [s[0]] + s[1..] == s;
    }
  }

  /** A separator-free head followed by the separator is split off as the first piece. */
  lemma {:induction false} ExplodeHead(p: string, sep: char, rest: string)
    requires sep !in p
    ensures Explode(p + [sep] + rest, sep) == [p] + Explode(rest, sep)
    decreases |p|
  {
    if p == [] {
      assert [sep] + rest == p + [sep] + rest;
      assert ([sep] + rest)[1..] == rest;
    } else {
      assert p[0] in p;
      ExplodeHead(p[1..], sep, rest);
      assert (p + [sep] + rest)[0] == p[0];
      assert (p + [sep] + rest)[1..] == p[1..] + [sep] + rest;
      assert [p[0]] + p[1..] == p;
    }
  }

  /** The processor and bare action obtained from an action id. */
  datatype Split = Split(processor: string, action: ActionId)

  /**
   * The processor split of the specialize stage: an action id that explode(':')
   * cuts into exactly two pieces gives (first piece, second piece); any other
   * id gives the empty processor and the id unchanged.
   */
  function SplitProcessor(action: ActionId): (r: Split)
    ensures CountChar(action, ClassActionSeparator) == 1 ==>
              r.processor + [ClassActionSeparator] + r.action == action
              && ClassActionSeparator !in r.processor && ClassActionSeparator !in r.action
    ensures CountChar(action, ClassActionSeparator) != 1 ==> r == Split("", action)
  {
    var parts := Explode(action, ClassActionSeparator);
    ExplodeCount(action, ClassActionSeparator);
    ImplodeExplode(action, ClassActionSeparator);
    ExplodePiecesFree(action, ClassActionSeparator);
    if |parts| == 2 then
      assert Implode(parts[1..], ClassActionSeparator) == parts[1];
      Split(parts[0], parts[1])
    else Split("", action)
  }

  /** Joining a processor and a bare action with ':' and splitting again gives them back. */
  lemma SplitOfJoined(processor: string, action: ActionId)
    requires ClassActionSeparator !in processor && ClassActionSeparator !in action
    ensures SplitProcessor(processor + [ClassActionSeparator] + action) == Split(processor, action)
  {
    ExplodeHead(processor, ClassActionSeparator, action);
    ExplodeFree(action, ClassActionSeparator);
  }

  /** Who handles an action on the legacy path of process(). */
  datatype LegacyHandler =
    | PluginHook(plugin: string)   // Plugin::doOneHook(<plugin>, 'MassiveActionsProcess', ...)
    | ItemHandler                  // the item type's own doSpecificMassiveActions

  /**
   * The legacy dispatch: explode('_') of the action; a first piece "plugin"
   * followed by a second piece names the plugin whose hook handles it.
   */
  function LegacyHandlerFor(action: ActionId): LegacyHandler {
    var split := Explode(action, '_');
    if split[0] == "plugin" && |split| >= 2 then PluginHook(split[1]) else ItemHandler
  }

  /**
   * A plugin hook handles exactly the actions that start with "plugin_", and
   * the plugin is named by the text up to the next '_'.
   */
  lemma {:induction false} LegacyHandlerPluginPrefix(action: ActionId)
    ensures LegacyHandlerFor(action).PluginHook? <==> |action| >= 7 && action[..7] == "plugin_"
    ensures LegacyHandlerFor(action).PluginHook? ==>
              LegacyHandlerFor(action).plugin == Explode(action[7..], '_')[0]
  {
    var split := Explode(action, '_');
    if |action| >= 7 && action[..7] == "plugin_" {
      assert action == "plugin" + ['_'] + action[7..];
      ExplodeHead("plugin", '_', action[7..]);
    }
    if split[0] == "plugin" && |split| >= 2 {
      ImplodeExplode(action, '_');
      assert action == "plugin" + ['_'] + Implode(split[1..], '_');
      ExplodeHead("plugin", '_', Implode(split[1..], '_'));
      ImplodeExplode(Implode(split[1..], '_'), '_');
      assert action[7..] == Implode(split[1..], '_');
    }
  }
}
