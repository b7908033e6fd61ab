/**
  A semantic highlighting token: an AST name node with its binding and AST root
  cached on first request and dropped whenever the node changes. Binding resolution
  and root lookup belong to the AST and are passed in as functions of the node.
*/
module SemanticTokens {
  import opened Wrappers

  datatype Node = Node(id: nat)
  datatype Binding = Binding(id: nat)
  datatype Root = Root(id: nat)

  datatype TokenError = NullPointer

  class SemanticToken {
    var node: Option<Node>
    var binding: Option<Binding>
    var root: Option<Root>
    /** How often the binding and the root have been computed, to tell a cache hit. */
    ghost var resolutions: nat
    ghost var rootLookups: nat

    /** A cached binding is the one the current node resolves to. */
    predicate BindingCoherent(resolve: Node -> Option<Binding>)
      reads this
    {
      binding.Some? ==> node.Some? && resolve(node.value) == binding
    }

    /** A cached root is the root of the current node. */
    predicate RootCoherent(rootOf: Node -> Root)
      reads this
    {
      root.Some? ==> node.Some? && root.value == rootOf(node.value)
    }

    constructor ()
      ensures node == None && binding == None && root == None
      ensures resolutions == 0 && rootLookups == 0
    {
      node, binding, root := None, None, None;
      resolutions, rootLookups := 0, 0;
    }

    /** getBinding: the cached binding; without one, the node's binding, resolved and
        cached (null when there is no node, or when resolution gives none). */
    method GetBinding(resolve: Node -> Option<Binding>) returns (b: Option<Binding>)
      modifies this
      ensures old(binding).Some? ==> b == old(binding) && resolutions == old(resolutions)
      ensures old(binding).None? && old(node).None? ==> b == None && resolutions == old(resolutions)
      ensures old(binding).None? && old(node).Some? ==>
        b == resolve(old(node).value) && resolutions == old(resolutions) + 1
      ensures binding == b
      ensures node == old(node) && root == old(root) && rootLookups == old(rootLookups)
      ensures old(BindingCoherent(resolve)) ==>
        BindingCoherent(resolve) && b == if node.Some? then resolve(node.value) else None
    {
      if binding.None? && node.Some? {
        binding := resolve(node.value);
        resolutions := resolutions + 1;
      }
      b := binding;
    }

    /** getNode. */
    method GetNode() returns (n: Option<Node>)
      ensures n == node
    {
      n := node;
    }

    /** getRoot: the cached root; without one, the root of the node, computed and cached.
        With neither a cached root nor a node, the node is dereferenced while null. */
    method GetRoot(rootOf: Node -> Root) returns (r: Result<Root, TokenError>)
      modifies this
      ensures old(root).Some? ==> r == Success(old(root).value) && rootLookups == old(rootLookups)
      ensures old(root).None? && old(node).None? ==> r == Failure(NullPointer) && rootLookups == old(rootLookups)
      ensures old(root).None? && old(node).Some? ==>
        r == Success(rootOf(old(node).value)) && rootLookups == old(rootLookups) + 1
      ensures r.Success? ==> root == Some(r.value)
      ensures r.Failure? ==> root == None
      ensures node == old(node) && binding == old(binding) && resolutions == old(resolutions)
      ensures old(RootCoherent(rootOf)) ==>
        RootCoherent(rootOf) && (node.Some? ==> r == Success(rootOf(node.value)))
    {
      if root.None? {
        if node.None? {
          return Failure(NullPointer);
        }
        root := Some(rootOf(node.value));
        rootLookups := rootLookups + 1;
      }
      r := Success(root.value);
    }

    /** update: a new node, and nothing cached. */
    method Update(n: Option<Node>)
      modifies this
      ensures node == n && binding == None && root == None
      ensures resolutions == old(resolutions) && rootLookups == old(rootLookups)
      ensures forall resolve: Node -> Option<Binding> :: BindingCoherent(resolve)
      ensures forall rootOf: Node -> Root :: RootCoherent(rootOf)
    {
      node := n;
      binding := None;
      root := None;
    }

    /** clear: no node, and nothing cached. */
    method Clear()
      modifies this
      ensures node == None && binding == None && root == None
      ensures resolutions == old(resolutions) && rootLookups == old(rootLookups)
      ensures forall resolve: Node -> Option<Binding> :: BindingCoherent(resolve)
      ensures forall rootOf: Node -> Root :: RootCoherent(rootOf)
    {
      node := None;
      binding := None;
      root := None;
    }
  }
}
