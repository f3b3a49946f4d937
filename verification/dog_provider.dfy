/** One discovery attempt: the image URL the dog API answers with, the breed
    read off that URL, three attributes drawn from fixed enumerations, and the
    ban check that accepts or rejects the resulting candidate. */
module DogProvider {
  import opened Split
  import opened BanList

  datatype Option<T> = None | Some(value: T)

  /** The enumerations the attributes are drawn from. */
  const Sizes: seq<string> := ["Small", "Medium", "Large"]
  const Origins: seq<string> := ["United States", "Germany", "Japan", "Australia"]
  const Lifespans: seq<string> := ["10 - 12 years", "12 - 15 years", "15 - 18 years"]

  /** A value returned by `Math.random()`: in [0, 1). */
  type Roll = r: real | 0.0 <= r < 1.0

  /** `breed` is None where JavaScript yields `undefined`. */
  datatype Dog = Dog(image: string, breed: Option<string>, size: string, origin: string, lifespan: string)

  /** What the fetch-and-parse step delivers: a `message` string, or an error
      (the request rejects, the body is not JSON, or `message` is not a string). */
  datatype Response = Failure | Message(url: string)

  /** Everything one attempt consumes from the outside world. */
  datatype Draw = Draw(response: Response, sizeRoll: Roll, originRoll: Roll, lifespanRoll: Roll)

  /** How one attempt ends. */
  datatype Attempt = Failed | Rejected(candidate: Dog) | Accepted(dog: Dog)

  /** `Math.floor(roll * n)`. */
  function ScaledIndex(roll: Roll, n: nat): (i: nat)
    requires n > 0
    ensures i < n
  {
    var x := roll * n as real;
    assert 0.0 <= x < n as real;
    x.Floor
  }

  /** `options[Math.floor(roll * options.length)]`. */
  function Pick(options: seq<string>, roll: Roll): (v: string)
    requires |options| > 0
    ensures v in options
  {
    options[ScaledIndex(roll, |options|)]
  }

  /** `url.split("/")[4]`, or None when there are fewer than five segments. */
  function Breed(url: string): (b: Option<string>)
    ensures b.Some? <==> Count(url, '/') >= 4
    ensures b.Some? ==> '/' !in b.value
  {
    var segments := SplitOn(url, '/');
    if |segments| > 4 then Some(segments[4]) else None
  }

  /** The candidate built from a URL and three rolls. */
  function Candidate(url: string, draw: Draw): (d: Dog)
    ensures WellFormed(d) && d.image == url
  {
    Dog(url, Breed(url), Pick(Sizes, draw.sizeRoll), Pick(Origins, draw.originRoll),
        Pick(Lifespans, draw.lifespanRoll))
  }

  /** Every dog the provider can produce: breed from its URL, attributes from the enumerations. */
  predicate WellFormed(d: Dog)
  {
    d.breed == Breed(d.image) && d.size in Sizes && d.origin in Origins && d.lifespan in Lifespans
  }

  /** The attribute values of a dog that a ban can match; an undefined breed is none. */
  function Attributes(d: Dog): seq<string>
  {
    (if d.breed.Some? then [d.breed.value] else []) + [d.size, d.origin, d.lifespan]
  }

  /** `banList.includes` of any of the four attributes; an undefined breed is never banned. */
  predicate Banned(list: seq<string>, d: Dog)
  {
    (d.breed.Some? && d.breed.value in list) || d.size in list || d.origin in list || d.lifespan in list
  }

  /** A dog is banned exactly when one of its attribute values is in the list. */
  lemma BannedIffSomeAttribute(list: seq<string>, d: Dog)
    ensures Banned(list, d) <==> exists x :: x in Attributes(d) && x in list
  {
  }

  /** One attempt of `fetchDog` against the ban list it captured. */
  function Try(list: seq<string>, draw: Draw): (a: Attempt)
    ensures a.Failed? <==> draw.response.Failure?
    ensures a.Rejected? ==> a.candidate == Candidate(draw.response.url, draw) && Banned(list, a.candidate)
    ensures a.Accepted? ==> a.dog == Candidate(draw.response.url, draw) && !Banned(list, a.dog)
  {
    match draw.response
    case Failure => Failed
    case Message(url) =>
      var d := Candidate(url, draw);
      if Banned(list, d) then Rejected(d) else Accepted(d)
  }

  /** Breed of a URL built from separator-free segments is its fifth segment. */
  lemma BreedOfSegments(segments: seq<string>)
    requires |segments| > 4
    requires forall i :: 0 <= i < |segments| ==> '/' !in segments[i]
    ensures Breed(JoinWith(segments, '/')) == Some(segments[4])
  {
    SplitJoin(segments, '/');
  }

  /** Joining a head onto a non-empty tail puts one separator between them. */
  lemma JoinCons(head: string, tail: seq<string>, c: char)
    requires tail != []
    ensures JoinWith([head] + tail, c) == head + [c] + JoinWith(tail, c)
  {
    assert ([head] + tail)[1..] == tail;
  }

  /** An image URL of the dog API, `<scheme>//<host>/breeds/<breed>/<file>`,
      yields its breed directory (for instance `boxer` from
      `https://images.dog.ceo/breeds/boxer/x.jpg`). */
  lemma BreedOfImageUrl(scheme: string, host: string, breed: string, file: string)
    requires '/' !in scheme && '/' !in host && '/' !in breed && '/' !in file
    ensures Breed(scheme + "//" + host + "/breeds/" + breed + "/" + file) == Some(breed)
  {
    var segments := [scheme, "", host, "breeds", breed, file];
    ImageUrlSegments(scheme, host, breed, file);
    assert forall i :: 0 <= i < |segments| ==> '/' !in segments[i];
    BreedOfSegments(segments);
  }

  /** The image URL is its six segments joined with `/`. */
  lemma ImageUrlSegments(scheme: string, host: string, breed: string, file: string)
    ensures JoinWith([scheme, "", host, "breeds", breed, file], '/')
         == scheme + "//" + host + "/breeds/" + breed + "/" + file
  {
    var s4 := [breed, file];
    var s3 := ["breeds"] + s4;
    var s2 := [host] + s3;
    var s1 := [""] + s2;
    JoinCons(breed, [file], '/');
    JoinCons("breeds", s4, '/');
    JoinCons(host, s3, '/');
    JoinCons("", s2, '/');
    JoinCons(scheme, s1, '/');
    assert [scheme] + s1 == [scheme, "", host, "breeds", breed, file];
    var joined := scheme + "/" + ("" + "/" + (host + "/" + ("breeds" + "/" + (breed + "/" + file))));
    assert JoinWith([scheme] + s1, '/') == joined;
    UrlShape(scheme, host, breed, file);
  }

  /** Regrouping the concatenations of the image URL. */
  lemma UrlShape(scheme: string, host: string, breed: string, file: string)
    ensures scheme + "/" + ("" + "/" + (host + "/" + ("breeds" + "/" + (breed + "/" + file))))
         == scheme + "//" + host + "/breeds/" + breed + "/" + file
  {
    assert "breeds" + "/" + (breed + "/" + file) == "breeds/" + breed + "/" + file;
    assert "" + "/" + (host + "/" + ("breeds/" + breed + "/" + file)) == "/" + host + "/breeds/" + breed + "/" + file;
  }

  /** With every lifespan banned, no attempt is ever accepted. */
  lemma AllLifespansBannedRejects(list: seq<string>, draw: Draw)
    requires forall l :: l in Lifespans ==> l in list
    ensures !Try(list, draw).Accepted?
  {
  }
}
