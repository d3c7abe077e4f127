/** The products page (`ProductComponent`): the cached list of products and the add/edit form. */
module ProductsPage {
  import opened Wrappers
  import opened ListState

  /** The front end's `Product`. Its numbers are JavaScript numbers; here they are exact reals. */
  datatype Product = Product(id: Option<int>, name: string, portionCount: real, unit: string, portionSize: real)

  /** The zeroed form. */
  const EmptyForm: Product := Product(None, "", 0.0, "", 0.0)

  /** The test `findIndex` and `filter` apply: the product carries the given id. */
  predicate HasId(id: Option<int>, p: Product) {
    p.id == id
  }

  class ProductComponent {
    var products: seq<Product>
    var newProduct: Product
    var isEditMode: bool
    var currentProductId: Option<int>

    /** The form is zeroed and no product is being edited. */
    ghost predicate FormCleared()
      reads this
    {
      newProduct == EmptyForm && !isEditMode && currentProductId.None?
    }

    constructor()
      ensures products == [] && FormCleared()
    {
      products := [];
      newProduct := EmptyForm;
      isEditMode := false;
      currentProductId := None;
    }

    /** `fetchProducts`, on the server's answer: the list becomes the fetched products. */
    method OnFetched(data: seq<Product>)
      modifies this`products
      ensures products == data
    {
      products := data;
    }

    /** `openAddProductDialog`: add mode with a zeroed form. */
    method OpenAddDialog()
      modifies this`newProduct, this`isEditMode, this`currentProductId
      ensures FormCleared()
    {
      isEditMode := false;
      ResetForm();
    }

    /** `openEditProductDialog`: edit mode for the product, whose copy fills the form. */
    method OpenEditDialog(product: Product)
      modifies this`newProduct, this`isEditMode, this`currentProductId
      ensures isEditMode && currentProductId == product.id && newProduct == product
    {
      isEditMode := true;
      currentProductId := product.id;
      newProduct := product;
    }

    /** `submitProduct`: an update of the product being edited, or an addition of the form's
        product. */
    method Submit() returns (request: Request<Product>)
      ensures isEditMode && currentProductId.Some? ==>
        request == UpdateRequest(currentProductId.value, newProduct.(id := currentProductId))
      ensures !(isEditMode && currentProductId.Some?) ==> request == AddRequest(newProduct)
    {
      if isEditMode && currentProductId.Some? {
        request := UpdateRequest(currentProductId.value, newProduct.(id := currentProductId));
      } else {
        request := AddRequest(newProduct);
      }
    }

    /** The update's answer: a null answer changes nothing; otherwise the first product with the
        answer's id is replaced by the answer (an id not in the list leaves the list as it is), and
        the form is reset. */
    method OnUpdated(response: Option<Product>)
      modifies this`products, this`newProduct, this`isEditMode, this`currentProductId
      ensures response.None? ==>
        products == old(products) && newProduct == old(newProduct) && isEditMode == old(isEditMode)
        && currentProductId == old(currentProductId)
      ensures response.Some? ==>
        products == ReplaceFirst(old(products), p => HasId(response.value.id, p), response.value)
        && FormCleared()
    {
      if response.None? {
        return;
      }
      var updated := response.value;
      var index := FindIndex(products, p => HasId(updated.id, p));
      if index != -1 {
        products := products[index := updated];
      }
      ResetForm();
    }

    /** The addition's answer: a null answer changes nothing; otherwise the answer is pushed onto
        the list and the form is reset. */
    method OnAdded(response: Option<Product>)
      modifies this`products, this`newProduct, this`isEditMode, this`currentProductId
      ensures response.None? ==>
        products == old(products) && newProduct == old(newProduct) && isEditMode == old(isEditMode)
        && currentProductId == old(currentProductId)
      ensures response.Some? ==> products == old(products) + [response.value] && FormCleared()
    {
      if response.None? {
        return;
      }
      products := products + [response.value];
      ResetForm();
    }

    /** `deleteProduct`, once confirmed and acknowledged: every product with that id leaves the
        list. */
    method OnDeleted(productId: int)
      modifies this`products
      ensures products == Remove(old(products), p => HasId(Some(productId), p))
    {
      products := Remove(products, p => HasId(Some(productId), p));
    }

    /** `resetForm`. */
    method ResetForm()
      modifies this`newProduct, this`isEditMode, this`currentProductId
      ensures FormCleared()
    {
      newProduct := EmptyForm;
      currentProductId := None;
      isEditMode := false;
    }
  }
}
