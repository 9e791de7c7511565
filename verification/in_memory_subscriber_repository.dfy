/** `InMemorySubscriberRepository`: newsletter subscribers in a dictionary
    whose e-mail keys compare ignoring letter case. */
module SubscriberStore {
  import opened Wrappers
  import opened Text

  /** A subscriber. Only its e-mail address takes part in the repository's
      logic; the type's other members are not part of this model and are
      carried as `details`. */
  datatype CustomerCartInfo = CustomerCartInfo(email: Option<string>, details: string)

  /** The key an e-mail address is filed under: `StringComparer.OrdinalIgnoreCase`
      treats two strings as equal exactly when their upper-cased forms are. */
  function EmailKey(email: string): (k: string)
    ensures |k| == |email|
    ensures forall i :: 0 <= i < |k| ==> !('a' <= k[i] <= 'z')
  {
    ToUpperString(email)
  }

  /** Addresses differing only in letter case share a key. */
  lemma EmailKeyIgnoresCase(email: string)
    ensures EmailKey(ToLowerString(email)) == EmailKey(email)
    ensures EmailKey(ToUpperString(email)) == EmailKey(email)
  {
    UpperOfLower(email);
    var u := ToUpperString(email);
    assert ToUpperString(u) == u by {
      forall i | 0 <= i < |u| ensures ToUpperString(u)[i] == u[i] {
        assert !('a' <= u[i] <= 'z');
      }
    }
  }

  /** Two addresses share a key exactly when they are equal ignoring letter
      case: addresses that differ in anything but case are filed apart. */
  lemma EmailKeyExact(a: string, b: string)
    ensures EmailKey(a) == EmailKey(b) <==> ToLowerString(a) == ToLowerString(b)
  {
    if |a| == |b| {
      forall i | 0 <= i < |a| ensures ToUpper(a[i]) == ToUpper(b[i]) <==> ToLower(a[i]) == ToLower(b[i]) {
        SameFold(a[i], b[i]);
      }
      if EmailKey(a) == EmailKey(b) {
        assert forall i :: 0 <= i < |a| ==> EmailKey(a)[i] == EmailKey(b)[i];
      }
      if ToLowerString(a) == ToLowerString(b) {
        assert forall i :: 0 <= i < |a| ==> ToLowerString(a)[i] == ToLowerString(b)[i];
      }
    } else {
      assert |EmailKey(a)| != |EmailKey(b)|;
      assert |ToLowerString(a)| != |ToLowerString(b)|;
    }
  }

  /** Addresses that differ other than in letter case get different keys. */
  lemma DistinctAddressesExample()
    ensures EmailKey("ab@x.se") != EmailKey("ba@x.se")
  {
    assert EmailKey("ab@x.se")[0] == 'A';
  }

  lemma EmailKeyExample()
    ensures EmailKey("Anna@Example.com") == EmailKey("anna@example.COM")
  {
  }

  /** Every entry is filed under the key of its own address. */
  predicate FiledByEmail(subscribers: map<string, CustomerCartInfo>) {
    forall k :: k in subscribers ==>
      subscribers[k].email.Some? && EmailKey(subscribers[k].email.value) == k
  }

  class InMemorySubscriberRepository {
    var subscribers: map<string, CustomerCartInfo>

    ghost predicate Valid()
      reads this
    {
      FiledByEmail(subscribers)
    }

    constructor()
      ensures Valid() && subscribers == map[]
    {
      subscribers := map[];
    }

    /** `GetAllAsync`: every stored subscriber, each once, in the dictionary's
        own (unspecified) order. */
    method GetAllAsync() returns (result: seq<CustomerCartInfo>)
      requires Valid()
      ensures forall i :: 0 <= i < |result| ==>
        result[i].email.Some? && EmailKey(result[i].email.value) in subscribers
        && subscribers[EmailKey(result[i].email.value)] == result[i]
      ensures forall k :: k in subscribers ==> subscribers[k] in result
      ensures forall i, j :: 0 <= i < j < |result| ==>
        EmailKey(result[i].email.value) != EmailKey(result[j].email.value)
    {
      var keys := subscribers.Keys;
      ghost var seen: set<string> := {};
      result := [];
      while keys != {}
        invariant keys !! seen && keys + seen == subscribers.Keys
        invariant forall i :: 0 <= i < |result| ==>
          result[i].email.Some? && EmailKey(result[i].email.value) in seen
          && subscribers[EmailKey(result[i].email.value)] == result[i]
        invariant forall k :: k in seen ==> subscribers[k] in result
        invariant forall i, j :: 0 <= i < j < |result| ==>
          EmailKey(result[i].email.value) != EmailKey(result[j].email.value)
        decreases keys
      {
        var k :| k in keys;
        result := result + [subscribers[k]];
        keys := keys - {k};
        seen := seen + {k};
      }
    }

    /** `GetByEmailAsync`: null for a null or empty address, otherwise the
        subscriber filed under it in any letter case, or null. */
    method GetByEmailAsync(email: Option<string>) returns (r: Option<CustomerCartInfo>)
      requires Valid()
      ensures IsNullOrEmpty(email) ==> r.None?
      ensures !IsNullOrEmpty(email) ==>
        r == if EmailKey(email.value) in subscribers then Some(subscribers[EmailKey(email.value)]) else None
      ensures r.Some? ==> r.value.email.Some? && EmailKey(r.value.email.value) == EmailKey(email.value)
    {
      if IsNullOrEmpty(email) {
        return None;
      }
      var key := EmailKey(email.value);
      if key in subscribers {
        r := Some(subscribers[key]);
      } else {
        r := None;
      }
    }

    /** `AddAsync`: refuse a null subscriber or an empty address, and an
        address already present in any letter case; otherwise insert. */
    method AddAsync(subscriber: Option<CustomerCartInfo>) returns (ok: bool)
      requires Valid()
      modifies this
      ensures Valid()
      ensures ok <==>
        && subscriber.Some? && !IsNullOrEmpty(subscriber.value.email)
        && EmailKey(subscriber.value.email.value) !in old(subscribers)
      ensures subscribers ==
        if ok then old(subscribers)[EmailKey(subscriber.value.email.value) := subscriber.value]
        else old(subscribers)
    {
      if subscriber.None? || IsNullOrEmpty(subscriber.value.email) {
        return false;
      }
      var key := EmailKey(subscriber.value.email.value);
      if key in subscribers {
        return false;
      }
      subscribers := subscribers[key := subscriber.value];
      return true;
    }

    /** `UpdateAsync`: replace the subscriber filed under the address; a null
        subscriber, an empty address or an unknown one fails and changes
        nothing. */
    method UpdateAsync(subscriber: Option<CustomerCartInfo>) returns (ok: bool)
      requires Valid()
      modifies this
      ensures Valid()
      ensures ok <==>
        && subscriber.Some? && !IsNullOrEmpty(subscriber.value.email)
        && EmailKey(subscriber.value.email.value) in old(subscribers)
      ensures subscribers ==
        if ok then old(subscribers)[EmailKey(subscriber.value.email.value) := subscriber.value]
        else old(subscribers)
      ensures subscribers.Keys == old(subscribers).Keys
    {
      if subscriber.None? || IsNullOrEmpty(subscriber.value.email) {
        return false;
      }
      var key := EmailKey(subscriber.value.email.value);
      if key !in subscribers {
        return false;
      }
      subscribers := subscribers[key := subscriber.value];
      return true;
    }

    /** `DeleteAsync`: an empty address fails; otherwise remove the entry,
        reporting whether there was one. */
    method DeleteAsync(email: Option<string>) returns (ok: bool)
      requires Valid()
      modifies this
      ensures Valid()
      ensures ok <==> !IsNullOrEmpty(email) && EmailKey(email.value) in old(subscribers)
      ensures subscribers ==
        if IsNullOrEmpty(email) then old(subscribers) else old(subscribers) - {EmailKey(email.value)}
    {
      if IsNullOrEmpty(email) {
        return false;
      }
      var key := EmailKey(email.value);
      ok := key in subscribers;
      subscribers := subscribers - {key};
    }

    /** `ExistsAsync`: false for an empty address, otherwise whether it is
        filed in any letter case. */
    method ExistsAsync(email: Option<string>) returns (b: bool)
      requires Valid()
      ensures b <==> !IsNullOrEmpty(email) && EmailKey(email.value) in subscribers
    {
      if IsNullOrEmpty(email) {
        return false;
      }
      return EmailKey(email.value) in subscribers;
    }
  }
}
