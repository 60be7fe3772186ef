/** ExternalLinkService: the link to a city's page on the national
    meteorological site. */
module ExternalLinkService {
  import opened Text

  const SitePrefix: string := "https://www.meteoromania.ro/"

  /** GetCityWeatherLink: spaces become dashes, the name is lower-cased and
      appended to the site prefix. */
  function GetCityWeatherLink(cityName: string): (link: string)
    ensures |link| == |SitePrefix| + |cityName|
    ensures link[..|SitePrefix|] == SitePrefix
    ensures forall i :: 0 <= i < |cityName| ==>
      link[|SitePrefix| + i] == if cityName[i] == ' ' then '-' else LowerChar(cityName[i])
    ensures ' ' !in link[|SitePrefix|..]
    ensures cityName == "" ==> link == SitePrefix
  {
    var cityFormatted := Lower(Replace(cityName, ' ', '-'));
    assert forall i :: 0 <= i < |cityFormatted| ==> cityFormatted[i] != ' ';
    assert (SitePrefix + cityFormatted)[|SitePrefix|..] == cityFormatted;
    SitePrefix + cityFormatted
  }

  /** Names that differ only in letter case give the same link. */
  lemma LinkIgnoresCase(a: string, b: string)
    requires Lower(a) == Lower(b)
    ensures GetCityWeatherLink(a) == GetCityWeatherLink(b)
  {
    var fa, fb := Lower(Replace(a, ' ', '-')), Lower(Replace(b, ' ', '-'));
    assert |a| == |Lower(a)| == |Lower(b)| == |b|;
    forall i | 0 <= i < |fa| ensures fa[i] == fb[i] {
      assert Lower(a)[i] == Lower(b)[i];
    }
    assert fa == fb;
  }
}
