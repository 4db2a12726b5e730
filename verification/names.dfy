/** Local socket names: text that is either borrowed or owned, tagged with
    whether it addresses a filesystem path or an operating-system private
    namespace. Name resolution itself is not part of this model. */
module Names {
  import opened Results

  datatype Name = Name(inner: Cow<string>, namespaced: bool) {

    /** A borrowed view of the same name. */
    function Borrow(): (r: Name)
      ensures r.inner.Borrowed?
      ensures r.inner.value == inner.value && r.namespaced == namespaced
    {
      Name(inner.Borrow(), namespaced)
    }

    /** The same name, owning its text. */
    function IntoOwned(): (r: Name)
      ensures r.inner.Owned?
      ensures r.inner.value == inner.value && r.namespaced == namespaced
    {
      Name(inner.IntoOwned(), namespaced)
    }
  }
}
