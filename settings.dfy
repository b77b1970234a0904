/** Per-server settings (the server_settings table) and the `toggle` command,
    which flips exactly one of the four feature switches. */
module Settings {
  import opened Intervals

  /** One row of server_settings. */
  datatype Settings = Settings(
    trackStatus: bool,
    trackGames: bool,
    trackVoice: bool,
    useBadges: bool,
    notificationChannel: Option<string>)

  datatype Feature = StatusFeature | GamesFeature | VoiceFeature | BadgesFeature

  /** The word an administrator types for each feature. */
  function FeatureName(f: Feature): string
  {
    match f
    case StatusFeature => "status"
    case GamesFeature => "games"
    case VoiceFeature => "voice"
    case BadgesFeature => "badges"
  }

  function Enabled(s: Settings, f: Feature): bool
  {
    match f
    case StatusFeature => s.trackStatus
    case GamesFeature => s.trackGames
    case VoiceFeature => s.trackVoice
    case BadgesFeature => s.useBadges
  }

  function LowerChar(c: char): (r: char)
    ensures 'A' <= c <= 'Z' ==> 'a' <= r <= 'z' && r as int == c as int + 32
    ensures !('A' <= c <= 'Z') ==> r == c
  {
    if 'A' <= c <= 'Z' then (c as int + 32) as char else c
  }

  /** `str.lower()` restricted to ASCII letters. */
  function Lower(s: string): (r: string)
    ensures |r| == |s|
    ensures forall i :: 0 <= i < |s| ==> r[i] == LowerChar(s[i])
  {
    if |s| == 0 then [] else [LowerChar(s[0])] + Lower(s[1..])
  }

  /** The feature a `toggle` argument names, compared after lower-casing. */
  function ParseFeature(word: string): Option<Feature>
  {
    var w := Lower(word);
    if w == "status" then Some(StatusFeature)
    else if w == "games" then Some(GamesFeature)
    else if w == "voice" then Some(VoiceFeature)
    else if w == "badges" then Some(BadgesFeature)
    else None
  }

  lemma {:induction false} LowerOfLowercase(s: string)
    requires forall i :: 0 <= i < |s| ==> !('A' <= s[i] <= 'Z')
    ensures Lower(s) == s
  {
    if |s| > 0 {
      LowerOfLowercase(s[1..]);
    }
  }

  /** A word is recognised exactly when its lower-cased form is a feature's
      name, and then it names that feature. */
  lemma ParseFeatureCorrect(word: string, f: Feature)
    ensures ParseFeature(word) == Some(f) <==> Lower(word) == FeatureName(f)
  {
  }

  /** Each feature's own keyword is recognised as that feature. */
  lemma ParseFeatureName(f: Feature)
    ensures ParseFeature(FeatureName(f)) == Some(f)
  {
    var w := FeatureName(f);
    LowerOfLowercase(w);
    assert Lower(w) == w;
  }

  /** `settings.<field> = not settings.<field>` for the field of `f`. */
  function Flip(s: Settings, f: Feature): (r: Settings)
    ensures Enabled(r, f) == !Enabled(s, f)
    ensures forall g :: g != f ==> Enabled(r, g) == Enabled(s, g)
    ensures r.notificationChannel == s.notificationChannel
  {
    match f
    case StatusFeature => s.(trackStatus := !s.trackStatus)
    case GamesFeature => s.(trackGames := !s.trackGames)
    case VoiceFeature => s.(trackVoice := !s.trackVoice)
    case BadgesFeature => s.(useBadges := !s.useBadges)
  }

  /** Toggling the same feature twice restores the settings. */
  lemma FlipTwice(s: Settings, f: Feature)
    ensures Flip(Flip(s, f), f) == s
  {
  }

  /** What the `toggle` command reports. `Toggled(BadgesFeature, true)` is
      also the case in which the command goes on to create the badge roles. */
  datatype ToggleOutcome = NotSetUp | InvalidFeature | Toggled(feature: Feature, enabled: bool)

  /** The settings of every configured server, keyed by server id. */
  class SettingsStore {
    var rows: map<string, Settings>

    constructor ()
      ensures rows == map[]
    {
      rows := map[];
    }

    /** The `toggle` command on server `server` with argument `word`. */
    method Toggle(server: string, word: string) returns (out: ToggleOutcome)
      modifies this
      ensures server !in old(rows) ==> out == NotSetUp && rows == old(rows)
      ensures server in old(rows) && ParseFeature(word).None? ==> out == InvalidFeature && rows == old(rows)
      ensures server in old(rows) && ParseFeature(word).Some? ==>
        var f := ParseFeature(word).value;
        && rows == old(rows)[server := Flip(old(rows)[server], f)]
        && out == Toggled(f, !Enabled(old(rows)[server], f))
    {
      if server !in rows {
        return NotSetUp;
      }
      var settings := rows[server];
      var feature := Lower(word);
      var f: Feature;
      if feature == "status" {
        f := StatusFeature;
      } else if feature == "games" {
        f := GamesFeature;
      } else if feature == "voice" {
        f := VoiceFeature;
      } else if feature == "badges" {
        f := BadgesFeature;
      } else {
        return InvalidFeature;
      }
      settings := Flip(settings, f);
      rows := rows[server := settings];
      out := Toggled(f, Enabled(settings, f));
    }
  }
}
