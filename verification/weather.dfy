/** The weather widget's classification of WMO weather interpretation codes (code table 4677,
    as reported by Open-Meteo) into six condition labels, and the icon chosen for a label. */
module Weather {
  import opened Text

  datatype Condition = Clear | Clouds | Drizzle | Rain | Snow | Thunderstorm

  datatype Icon = Sun | Cloud | CloudRain | CloudLightning | CloudSnow | CloudDrizzle

  /** The label string under which a condition is kept in the widget state. */
  function Label(c: Condition): String
  {
    match c
    case Clear => "clear"
    case Clouds => "clouds"
    case Drizzle => "drizzle"
    case Rain => "rain"
    case Snow => "snow"
    case Thunderstorm => "thunderstorm"
  }

  predicate InRange(code: int, lo: int, hi: int)
  {
    lo <= code <= hi
  }

  /** The condition for a weather code: the drizzle, rain, snow and thunderstorm bands by range,
      0 as clear, and everything else (mainly 1 to 3, fog, showers) as clouds. */
  function GetCondition(code: int): (c: Condition)
    ensures c == Clear <==> code == 0
    ensures c == Drizzle <==> InRange(code, 51, 57)
    ensures c == Rain <==> InRange(code, 61, 67)
    ensures c == Snow <==> InRange(code, 71, 77)
    ensures c == Thunderstorm <==> InRange(code, 95, 99)
    ensures c == Clouds <==> !(code == 0 || InRange(code, 51, 57) || InRange(code, 61, 67)
                               || InRange(code, 71, 77) || InRange(code, 95, 99))
  {
    if code == 0 then Clear
    else if code == 1 || code == 2 || code == 3 then Clouds
    else if InRange(code, 51, 57) then Drizzle
    else if InRange(code, 61, 67) then Rain
    else if InRange(code, 71, 77) then Snow
    else if InRange(code, 95, 99) then Thunderstorm
    else Clouds
  }

  /** `toLowerCase` on the ASCII letters. */
  function LowerChar(c: char): (r: char)
    ensures 'A' <= c <= 'Z' ==> 'a' <= r <= 'z' && r as int == c as int + 32
    ensures !('A' <= c <= 'Z') ==> r == c
  {
    if 'A' <= c <= 'Z' then (c as int - 'A' as int + 'a' as int) as char else c
  }

  function ToLower(s: String): (r: String)
    ensures |r| == |s|
    ensures forall k :: 0 <= k < |s| ==> r[k] == LowerChar(s[k])
  {
    seq(|s|, k requires 0 <= k < |s| => LowerChar(s[k]))
  }

  /** The icon drawn for a condition label, matched without regard to case; an unknown label
      gets the cloud. */
  function WeatherIcon(condition: String): (r: Icon)
    ensures r == Sun <==> ToLower(condition) == "clear"
    ensures r == CloudRain <==> ToLower(condition) == "rain"
    ensures r == CloudLightning <==> ToLower(condition) == "thunderstorm"
    ensures r == CloudSnow <==> ToLower(condition) == "snow"
    ensures r == CloudDrizzle <==> ToLower(condition) == "drizzle"
    ensures r == Cloud <==> ToLower(condition) !in ["clear", "rain", "thunderstorm", "snow", "drizzle"]
  {
    var l := ToLower(condition);
    if l == "clear" then Sun
    else if l == "clouds" then Cloud
    else if l == "rain" then CloudRain
    else if l == "thunderstorm" then CloudLightning
    else if l == "snow" then CloudSnow
    else if l == "drizzle" then CloudDrizzle
    else Cloud
  }

  lemma LabelsAreLowerCase(c: Condition)
    ensures ToLower(Label(c)) == Label(c)
  {
  }

  /** Each of the six labels selects its own icon, and no two labels share one. */
  lemma IconsDistinguishConditions(c: Condition, d: Condition)
    ensures WeatherIcon(Label(c)) == WeatherIcon(Label(d)) <==> c == d
  {
    LabelsAreLowerCase(c);
    LabelsAreLowerCase(d);
  }

  /** Matching ignores case: lower-casing first changes nothing. */
  lemma IconIgnoresCase(s: String)
    ensures WeatherIcon(ToLower(s)) == WeatherIcon(s)
  {
    assert ToLower(ToLower(s)) == ToLower(s);
  }

  /** Any text that is not, up to case, one of the six labels gets the same icon as "clouds". */
  lemma UnknownLabelIsCloud(s: String)
    requires forall c: Condition :: ToLower(s) != Label(c)
    ensures WeatherIcon(s) == WeatherIcon(Label(Clouds)) == Cloud
  {
    LabelsAreLowerCase(Clouds);
    assert ToLower(s) != Label(Clear) && ToLower(s) != Label(Rain) && ToLower(s) != Label(Snow);
    assert ToLower(s) != Label(Drizzle) && ToLower(s) != Label(Thunderstorm) && ToLower(s) != Label(Clouds);
  }

  /** From weather code to icon: the sun exactly for code 0, and a rain, snow, drizzle or
      lightning cloud exactly inside the matching band. */
  lemma CodeToIcon(code: int)
    ensures var icon := WeatherIcon(Label(GetCondition(code)));
            && (icon == Sun <==> code == 0)
            && (icon == CloudDrizzle <==> InRange(code, 51, 57))
            && (icon == CloudRain <==> InRange(code, 61, 67))
            && (icon == CloudSnow <==> InRange(code, 71, 77))
            && (icon == CloudLightning <==> InRange(code, 95, 99))
  {
    var c := GetCondition(code);
    LabelsAreLowerCase(c);
  }
}
