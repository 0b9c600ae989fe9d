/**
 How a requested host is cut into a service host and a user: at every dot, longest user
 first. The cuts are made by splitting the host into labels and joining them again.
 */
module Hosts {
  /** The first character either starts a label of its own or extends the first label. */
  function Extended(c: char, labels: seq<string>): seq<string>
    requires labels != []
  {
    if c == '.' then [""] + labels else [[c] + labels[0]] + labels[1..]
  }

  /** The labels between the dots; an empty host has one empty label. */
  function Split(host: string): (labels: seq<string>)
    ensures |labels| >= 1
  {
    if host == "" then [""] else Extended(host[0], Split(host[1..]))
  }

  function Join(labels: seq<string>): string {
    if labels == [] then ""
    else if |labels| == 1 then labels[0]
    else labels[0] + "." + Join(labels[1..])
  }

  /** The user candidate at a cut. */
  function UserAt(host: string, index: nat): string
    requires index < |Split(host)|
  {
    Join(Split(host)[index..])
  }

  function ServiceHostAt(host: string, index: nat): string
    requires index < |Split(host)|
  {
    Join(Split(host)[..index])
  }

  /** What a cut means, without splitting or joining: the whole host, or everything around one dot. */
  predicate IsCut(host: string, service: string, user: string) {
    (service == "" && user == host) || host == service + "." + user
  }

  lemma JoinExtended(c: char, labels: seq<string>)
    requires labels != []
    ensures Join(Extended(c, labels)) == [c] + Join(labels)
  {
    if c == '.' {
      assert Extended(c, labels)[1..] == labels;
    } else if |labels| > 1 {
      assert Extended(c, labels)[1..] == labels[1..];
      assert ([c] + labels[0]) + "." + Join(labels[1..]) == [c] + (labels[0] + "." + Join(labels[1..]));
    }
  }

  lemma {:induction false} JoinSplit(host: string)
    ensures Join(Split(host)) == host
  {
    if host != "" {
      JoinSplit(host[1..]);
      JoinExtended(host[0], Split(host[1..]));
      assert [host[0]] + host[1..] == host;
    }
  }

  lemma {:induction false} JoinConcat(a: seq<string>, b: seq<string>)
    requires a != [] && b != []
    ensures Join(a + b) == Join(a) + "." + Join(b)
  {
    if |a| == 1 {
      assert (a + b)[1..] == b;
    } else {
      JoinConcat(a[1..], b);
      assert (a + b)[1..] == a[1..] + b;
      assert a[0] + "." + (Join(a[1..]) + "." + Join(b)) == (a[0] + "." + Join(a[1..])) + "." + Join(b);
    }
  }

  lemma ExtendedConcat(c: char, a: seq<string>, b: seq<string>)
    requires a != []
    ensures Extended(c, a + b) == Extended(c, a) + b
  {
    assert (a + b)[1..] == a[1..] + b;
  }

  lemma {:induction false} SplitConcat(service: string, user: string)
    ensures Split(service + "." + user) == Split(service) + Split(user)
  {
    var host := service + "." + user;
    if service == "" {
      assert host[1..] == user && host[0] == '.';
    } else {
      SplitConcat(service[1..], user);
      assert host[1..] == service[1..] + "." + user && host[0] == service[0];
      ExtendedConcat(host[0], Split(service[1..]), Split(user));
    }
  }

  /** Every index gives a cut of the host. */
  lemma IndexIsCut(host: string, index: nat)
    requires index < |Split(host)|
    ensures IsCut(host, ServiceHostAt(host, index), UserAt(host, index))
  {
    JoinSplit(host);
    var labels := Split(host);
    if index == 0 {
      assert labels[0..] == labels;
    } else {
      JoinConcat(labels[..index], labels[index..]);
      assert labels[..index] + labels[index..] == labels;
    }
  }

  /** Every cut of the host, also around empty labels, is at exactly one index. */
  lemma CutIsIndex(host: string, service: string, user: string) returns (index: nat)
    requires IsCut(host, service, user)
    ensures index < |Split(host)| && ServiceHostAt(host, index) == service && UserAt(host, index) == user
  {
    if service == "" && user == host {
      index := 0;
      JoinSplit(host);
      assert Split(host)[0..] == Split(host);
    } else {
      SplitConcat(service, user);
      JoinSplit(service);
      JoinSplit(user);
      index := |Split(service)|;
      assert Split(host)[..index] == Split(service);
      assert Split(host)[index..] == Split(user);
    }
  }

  /** Later indices give strictly shorter users, so the cuts are tried longest user first. */
  lemma UsersShrink(host: string, i: nat, j: nat)
    requires i < j < |Split(host)|
    ensures |UserAt(host, j)| < |UserAt(host, i)|
  {
    var labels := Split(host);
    JoinConcat(labels[i..j], labels[j..]);
    assert labels[i..j] + labels[j..] == labels[i..];
  }
}
