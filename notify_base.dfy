// Change notification for bound properties: a property's backing field
// is written only when the new value differs, and each real change raises
// one PropertyChanged event naming the property, delivered only when
// someone is subscribed.
module NotifyBase {
  type String = seq<char>

  class NotifyBase<T(==)> {
    /** The backing field SetProperty writes through. */
    var storage: T
    var hasSubscribers: bool
    /** The property names carried by the PropertyChanged events raised. */
    ghost var raised: seq<String>

    constructor (initial: T, hasSubscribers: bool)
      ensures storage == initial && this.hasSubscribers == hasSubscribers && raised == []
    {
      storage := initial;
      this.hasSubscribers := hasSubscribers;
      raised := [];
    }

    /** Raises PropertyChanged for propName; with no subscriber nothing
        happens. */
    method DoNotify(propName: String)
      modifies this`raised
      ensures raised == old(raised) + (if hasSubscribers then [propName] else [])
    {
      if hasSubscribers {
        raised := raised + [propName];
      }
    }

    /** Stores value and notifies when it differs from the stored one;
        answers whether it did. */
    method SetProperty(value: T, propertyName: String) returns (changed: bool)
      modifies this`storage, this`raised
      ensures changed <==> old(storage) != value
      ensures storage == value
      ensures raised == old(raised) + (if changed && hasSubscribers then [propertyName] else [])
    {
      if storage == value {
        return false;
      }
      storage := value;
      DoNotify(propertyName);
      changed := true;
    }
  }

  /** Setting the same value twice: the second call changes nothing and
      raises nothing. */
  method SetTwice<T(==)>(o: NotifyBase<T>, value: T, propertyName: String) returns (first: bool, second: bool)
    modifies o
    ensures !second && o.storage == value
    ensures first <==> old(o.storage) != value
    ensures |o.raised| <= |old(o.raised)| + 1
  {
    first := o.SetProperty(value, propertyName);
    second := o.SetProperty(value, propertyName);
  }
}
